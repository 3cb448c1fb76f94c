/**
 * `SubsidiosController`: creating, editing and deleting subsidies, and the
 * three listings (`Index`, `Activos`, `Reporte`), each ordered by
 * descending id.
 */
module SubsidiosController {
  import opened Wrappers
  import opened Mvc
  import opened Store

  // ---------------------------------------------------------------- ordering

  /** Strictly decreasing ids: `OrderByDescending(s => s.Id)` over a key column. */
  predicate Descending(ids: seq<int>) {
    forall i, j :: 0 <= i < j < |ids| ==> ids[i] > ids[j]
  }

  lemma Pick(s: set<int>) returns (x: int)
    requires s != {}
    ensures x in s
  {
    if forall y :: y !in s {
      assert false;
    }
    var y :| y in s;
    x := y;
  }

  lemma {:induction false} MaxExists(keys: set<int>)
    requires keys != {}
    ensures exists k :: k in keys && forall j :: j in keys ==> j <= k
  {
    var x := Pick(keys);
    if keys != {x} {
      var rest := keys - {x};
      MaxExists(rest);
      var m :| m in rest && forall j :: j in rest ==> j <= m;
      var k := if x > m then x else m;
      forall j | j in keys
        ensures j <= k
      {
        if j != x {
          assert j in rest;
        }
      }
    } else {
      assert forall j :: j in keys ==> j <= x;
    }
  }

  lemma DescendingCons(h: int, rest: seq<int>)
    requires Descending(rest)
    requires forall x :: x in rest ==> x < h
    ensures Descending([h] + rest)
  {
    var r := [h] + rest;
    forall i, j | 0 <= i < j < |r|
      ensures r[i] > r[j]
    {
      assert r[j] == rest[j - 1];
      if i > 0 {
        assert r[i] == rest[i - 1];
      } else {
        assert rest[j - 1] in rest;
      }
    }
  }

  /** The largest key. */
  function MaxKey(keys: set<int>): (k: int)
    requires keys != {}
    ensures k in keys && forall j :: j in keys ==> j <= k
  {
    MaxExists(keys);
    var k :| k in keys && forall j :: j in keys ==> j <= k; k
  }

  /** The keys, largest first. */
  function OrderByIdDesc(keys: set<int>): (r: seq<int>)
    ensures Descending(r)
    ensures forall k :: k in r <==> k in keys
    ensures |r| == |keys|
    decreases |keys|
  {
    if keys == {} then []
    else
      var k := MaxKey(keys);
      var rest := OrderByIdDesc(keys - {k});
      assert forall i :: 0 <= i < |rest| ==> rest[i] in keys - {k};
      DescendingCons(k, rest);
      [k] + rest
  }

  /** `Index`: every subsidy, largest id first. */
  function Index(subsidios: map<int, Subsidio>): (r: seq<int>)
    ensures Descending(r)
    ensures forall k :: k in r <==> k in subsidios
    ensures |r| == |subsidios|
  {
    OrderByIdDesc(subsidios.Keys)
  }

  /** The ids whose `Estado` is exactly "Activo" (the comparison is case-sensitive). */
  function ActivoIds(subsidios: map<int, Subsidio>): set<int> {
    set k | k in subsidios && subsidios[k].estado == "Activo"
  }

  /** `Activos`: the active subsidies, largest id first. */
  function Activos(subsidios: map<int, Subsidio>): (r: seq<int>)
    ensures Descending(r)
    ensures forall k :: k in r <==> k in subsidios && subsidios[k].estado == "Activo"
  {
    OrderByIdDesc(ActivoIds(subsidios))
  }

  /** `Reporte`: the number of subsidies listed and the sum of their `Monto`. */
  datatype Reporte = Reporte(totalSubsidios: nat, montoTotal: int)

  function Sum(ids: seq<int>, subsidios: map<int, Subsidio>): int {
    if ids == [] then 0
    else (if ids[0] in subsidios then subsidios[ids[0]].monto else 0) + Sum(ids[1..], subsidios)
  }

  function ReporteOf(subsidios: map<int, Subsidio>): (r: Reporte)
    ensures r.totalSubsidios == |subsidios|
    ensures subsidios == map[] ==> r.montoTotal == 0
  {
    var listado := Index(subsidios);
    Reporte(|listado|, Sum(listado, subsidios))
  }

  // ---------------------------------------------------------------- actions

  /** `Create` (POST): `bindingValid` is `ModelState.IsValid`; the row gets the next identity value. */
  method Create(db: Database, bindingValid: bool, s: Subsidio) returns (r: ActionResult)
    requires db.Valid()
    modifies db
    ensures db.Valid()
    ensures !bindingValid ==> r == FormInvalid && db.State() == old(db.State())
    ensures bindingValid && s.beneficiarioId !in old(db.beneficiarios) ==>
      r == FormError("BeneficiarioId", UnknownReference) && db.State() == old(db.State())
    ensures bindingValid && s.beneficiarioId in old(db.beneficiarios) ==>
      && r == Redirect("Index", "Subsidios", None, FlashSuccess)
      && db.State() == old(db.State()).(subsidios := old(db.subsidios)[old(db.nextSubsidio) := s],
                                        nextSubsidio := old(db.nextSubsidio) + 1)
      && Index(db.subsidios) == [old(db.nextSubsidio)] + Index(old(db.subsidios))
      && ReporteOf(db.subsidios) == Reporte(ReporteOf(old(db.subsidios)).totalSubsidios + 1,
                                            ReporteOf(old(db.subsidios)).montoTotal + s.monto)
    ensures BeneficiariosExisten(old(db.State())) ==> BeneficiariosExisten(db.State())
  {
    if !bindingValid {
      return FormInvalid;
    }
    if s.beneficiarioId !in db.beneficiarios {
      return FormError("BeneficiarioId", UnknownReference);
    }
    var id := db.AddSubsidio(s);
    ReporteAfterInsert(old(db.subsidios), id, s);
    r := Redirect("Index", "Subsidios", None, FlashSuccess);
  }

  /** `Edit` (POST): all six fields are overwritten; the beneficiary is not looked up again. */
  method Edit(db: Database, bindingValid: bool, id: int, s: Subsidio) returns (r: ActionResult)
    requires db.Valid()
    modifies db
    ensures db.Valid()
    ensures !bindingValid ==> r == FormInvalid && db.State() == old(db.State())
    ensures bindingValid && id !in old(db.subsidios) ==>
      r == FormError("", NotExisting) && db.State() == old(db.State())
    ensures bindingValid && id in old(db.subsidios) ==>
      && r == Redirect("Index", "Subsidios", None, FlashSuccess)
      && db.State() == old(db.State()).(subsidios := old(db.subsidios)[id := s])
  {
    if !bindingValid {
      return FormInvalid;
    }
    if id !in db.subsidios {
      return FormError("", NotExisting);
    }
    db.subsidios := db.subsidios[id := s];
    r := Redirect("Index", "Subsidios", None, FlashSuccess);
  }

  /** `DeleteConfirmed`: removes the row if there is one, and goes back to the list either way. */
  method DeleteConfirmed(db: Database, id: int) returns (r: ActionResult)
    requires db.Valid()
    modifies db
    ensures db.Valid()
    ensures r == RedirectTo("Index", "Subsidios")
    ensures db.State() == old(db.State()).(subsidios := old(db.subsidios) - {id})
  {
    db.subsidios := db.subsidios - {id};
    r := RedirectTo("Index", "Subsidios");
  }

  // ---------------------------------------------------------------- lemmas

  lemma HeadIsMember(s: seq<int>)
    ensures s != [] ==> s[0] in s
  {
  }

  /** Two decreasing sequences with the same elements are the same sequence. */
  lemma {:induction false} DescendingUnique(a: seq<int>, b: seq<int>)
    requires Descending(a) && Descending(b)
    requires forall x :: x in a <==> x in b
    ensures a == b
  {
    HeadIsMember(a);
    HeadIsMember(b);
    if a != [] {
      assert b != [];
      assert a[0] == b[0] by {
        var i :| 0 <= i < |b| && b[i] == a[0];
        var j :| 0 <= j < |a| && a[j] == b[0];
        assert b[0] >= a[0] && a[0] >= b[0];
      }
      forall x
        ensures x in a[1..] <==> x in b[1..]
      {
        if x in a[1..] {
          var i :| 1 <= i < |a| && a[i] == x;
          assert x != a[0];
          assert x in b;
        }
        if x in b[1..] {
          var i :| 1 <= i < |b| && b[i] == x;
          assert x != b[0];
          assert x in a;
        }
      }
      DescendingUnique(a[1..], b[1..]);
    }
  }

  /** The elements of `ids` that lie in `keep`, in their order. */
  function Keep(ids: seq<int>, keep: set<int>): (r: seq<int>)
    ensures forall x :: x in r <==> x in ids && x in keep
    ensures Descending(ids) ==> Descending(r)
  {
    if ids == [] then []
    else
      var rest := Keep(ids[1..], keep);
      assert forall x :: x in ids[1..] ==> x in ids;
      assert Descending(ids) ==> forall x :: x in rest ==> x < ids[0] by {
        if Descending(ids) {
          forall x | x in rest ensures x < ids[0] {
            var i :| 0 <= i < |ids[1..]| && ids[1..][i] == x;
            assert ids[i + 1] == x;
          }
        }
      }
      if ids[0] in keep then
        assert Descending(ids) ==> Descending([ids[0]] + rest) by {
          if Descending(ids) {
            DescendingCons(ids[0], rest);
          }
        }
        [ids[0]] + rest
      else rest
  }

  /** `Activos` is `Index` with the inactive subsidies struck out, order kept. */
  lemma ActivosIsFilteredIndex(subsidios: map<int, Subsidio>)
    ensures Activos(subsidios) == Keep(Index(subsidios), ActivoIds(subsidios))
  {
    DescendingUnique(Activos(subsidios), Keep(Index(subsidios), ActivoIds(subsidios)));
  }

  lemma {:induction false} SumFrame(ids: seq<int>, m1: map<int, Subsidio>, m2: map<int, Subsidio>)
    requires forall x :: x in ids ==> (x in m1 <==> x in m2) && (x in m1 ==> m1[x].monto == m2[x].monto)
    ensures Sum(ids, m1) == Sum(ids, m2)
  {
    if ids != [] {
      var h := ids[0];
      assert h in ids;
      assert (h in m1 <==> h in m2) && (h in m1 ==> m1[h].monto == m2[h].monto);
      assert forall x :: x in ids[1..] ==> x in ids;
      SumFrame(ids[1..], m1, m2);
      assert (if h in m1 then m1[h].monto else 0) == (if h in m2 then m2[h].monto else 0);
    }
  }

  /** A new subsidy with a larger id than all others is listed first and counted once. */
  lemma ReporteAfterInsert(m: map<int, Subsidio>, id: int, s: Subsidio)
    requires forall k :: k in m ==> k < id
    ensures Index(m[id := s]) == [id] + Index(m)
    ensures ReporteOf(m[id := s]) == Reporte(ReporteOf(m).totalSubsidios + 1, ReporteOf(m).montoTotal + s.monto)
  {
    var before := Index(m);
    var after := [id] + before;
    var m' := m[id := s];
    assert Index(m') == after by {
      assert forall x :: x in before <==> x in m;
      DescendingCons(id, before);
      assert forall x :: x in after <==> x == id || x in before;
      DescendingUnique(Index(m'), after);
    }
    assert Sum(after, m') == s.monto + Sum(before, m) by {
      assert after[0] == id && after[1..] == before;
      assert id !in before by {
        assert forall x :: x in before <==> x in m;
      }
      SumFrame(before, m', m);
    }
  }

  lemma {:induction false} SumWithout(ids: seq<int>, m: map<int, Subsidio>, id: int)
    requires Descending(ids) && id in ids && id in m
    ensures Sum(ids, m) == Sum(Keep(ids, m.Keys - {id}), m) + m[id].monto
  {
    assert forall x :: x in ids[1..] ==> x in ids;
    if ids[0] == id {
      var rest := ids[1..];
      assert forall i :: 0 <= i < |rest| ==> rest[i] == ids[i + 1] && rest[i] < id;
      SumFrameKeep(rest, m, id);
    } else {
      assert id in ids[1..];
      SumWithout(ids[1..], m, id);
    }
  }

  lemma {:induction false} SumFrameKeep(ids: seq<int>, m: map<int, Subsidio>, id: int)
    requires id !in ids
    ensures Sum(Keep(ids, m.Keys - {id}), m) == Sum(ids, m)
  {
    if ids != [] {
      assert forall x :: x in ids[1..] ==> x in ids;
      SumFrameKeep(ids[1..], m, id);
    }
  }

  /** Deleting a subsidy takes it out of the list, order kept. */
  lemma IndexAfterDelete(m: map<int, Subsidio>, id: int)
    requires id in m
    ensures Index(m - {id}) == Keep(Index(m), m.Keys - {id})
  {
    var kept := Keep(Index(m), m.Keys - {id});
    assert forall x :: x in kept <==> x in m - {id};
    DescendingUnique(Index(m - {id}), kept);
  }

  /** Deleting a subsidy takes one record and its amount out of the report. */
  lemma ReporteAfterDelete(m: map<int, Subsidio>, id: int)
    requires id in m
    ensures Index(m - {id}) == Keep(Index(m), m.Keys - {id})
    ensures ReporteOf(m - {id}) == Reporte(ReporteOf(m).totalSubsidios - 1, ReporteOf(m).montoTotal - m[id].monto)
  {
    IndexAfterDelete(m, id);
    SumAfterDelete(m, id, Index(m));
  }

  lemma SumAfterDelete(m: map<int, Subsidio>, id: int, listed: seq<int>)
    requires id in m && listed == Index(m)
    ensures Sum(Keep(listed, m.Keys - {id}), m - {id}) == Sum(listed, m) - m[id].monto
  {
    var kept := Keep(listed, m.Keys - {id});
    SumWithout(listed, m, id);
    assert forall x :: x in kept ==> x in m && x != id;
    SumFrame(kept, m - {id}, m);
  }
}
