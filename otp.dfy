/**
 * The one-time-password registry (`OtpService`): one entry per e-mail key
 * holding the code and its expiry instant. `Generar` draws a code and
 * overwrites the key's entry; `Validar` checks a guess, lazily purging an
 * expired entry and consuming the entry on a correct guess. There is no
 * cooldown and no attempt counter.
 *
 * `DateTime.Now` and the `Random.Next(100000, 999999)` draw are parameters.
 */
module Otp {
  import opened Text
  import opened Decimal

  /** `DateTime` values, counted in ticks of 100 nanoseconds. */
  type Ticks = int

  const TicksPerMinute: int := 600_000_000

  /** `DateTime.Now.AddMinutes(5)`: an entry expires five minutes after issue. */
  const ValidityTicks: int := 5 * TicksPerMinute

  /** `Random.Next(DrawLow, DrawHigh)` returns `DrawLow <= x < DrawHigh`. */
  const DrawLow: int := 100000
  const DrawHigh: int := 999999

  datatype Entry = Entry(codigo: string, expira: Ticks)

  /** The text of a drawn code: six digits, the first not zero. */
  function CodeOf(draw: int): (c: string)
    requires DrawLow <= draw < DrawHigh
    ensures |c| == 6 && AllDigits(c) && c[0] != '0'
    ensures DigitsValue(c) == draw
  {
    assert Pow10(5) == 100000 by {
      assert Pow10(1) == 10 && Pow10(2) == 100 && Pow10(3) == 1000 && Pow10(4) == 10000;
    }
    NatTextLength(draw, 6);
    NatTextNoLeadingZero(draw);
    DigitsValueOfNatText(draw);
    NatText(draw)
  }

  /** The registry after `codigo` is issued for `correo` at `now`. */
  function Issued(otps: map<string, Entry>, correo: string, codigo: string, now: Ticks): map<string, Entry> {
    otps[correo := Entry(codigo, now + ValidityTicks)]
  }

  /** What `Validar` answers, and the registry it leaves. */
  datatype Verdict = Verdict(accepted: bool, otps: map<string, Entry>)

  function Checked(otps: map<string, Entry>, correo: string, ingreso: string, now: Ticks): Verdict {
    if correo !in otps then Verdict(false, otps)
    else if now > otps[correo].expira then Verdict(false, otps - {correo})
    else if otps[correo].codigo == ingreso then Verdict(true, otps - {correo})
    else Verdict(false, otps)
  }

  class OtpService {
    var otps: map<string, Entry>

    constructor ()
      ensures otps == map[]
    {
      otps := map[];
    }

    method Generar(correo: string, now: Ticks, draw: int) returns (codigo: string)
      requires DrawLow <= draw < DrawHigh
      modifies this
      ensures codigo == CodeOf(draw)
      ensures otps == Issued(old(otps), correo, codigo, now)
    {
      codigo := CodeOf(draw);
      otps := otps[correo := Entry(codigo, now + ValidityTicks)];
    }

    method Validar(correo: string, ingreso: string, now: Ticks) returns (ok: bool)
      modifies this
      ensures Verdict(ok, otps) == Checked(old(otps), correo, ingreso, now)
    {
      if correo !in otps {
        return false;
      }
      var entry := otps[correo];
      if now > entry.expira {
        otps := otps - {correo};
        return false;
      }
      ok := entry.codigo == ingreso;
      if ok {
        otps := otps - {correo};
      }
    }
  }

  // ---------------------------------------------------------------- lemmas

  lemma ValueOfNines()
    ensures DigitsValue("999999") == 999999
  {
    var nines := "999999";
    assert DigitsValue(nines[..1]) == 9;
    assert nines[..2][..1] == nines[..1];
    assert DigitsValue(nines[..2]) == 99;
    assert nines[..3][..2] == nines[..2];
    assert DigitsValue(nines[..3]) == 999;
    assert nines[..4][..3] == nines[..3];
    assert DigitsValue(nines[..4]) == 9999;
    assert nines[..5][..4] == nines[..4];
    assert DigitsValue(nines[..5]) == 99999;
    assert nines[..6][..5] == nines[..5] && nines[..6] == nines;
  }

  /** 999999 is excluded by `Random.Next`, so the code "999999" is never issued. */
  lemma CodeNeverAllNines(draw: int)
    requires DrawLow <= draw < DrawHigh
    ensures CodeOf(draw) != "999999"
  {
    ValueOfNines();
  }

  /** Issuing replaces the key's entry and leaves every other key alone. */
  lemma IssuedEntries(otps: map<string, Entry>, correo: string, codigo: string, now: Ticks, other: string)
    ensures correo in Issued(otps, correo, codigo, now)
    ensures Issued(otps, correo, codigo, now)[correo] == Entry(codigo, now + ValidityTicks)
    ensures other != correo ==> (other in Issued(otps, correo, codigo, now) <==> other in otps)
    ensures other != correo && other in otps ==> Issued(otps, correo, codigo, now)[other] == otps[other]
  {
  }

  lemma UnknownKeyRejected(otps: map<string, Entry>, correo: string, ingreso: string, now: Ticks)
    requires correo !in otps
    ensures Checked(otps, correo, ingreso, now) == Verdict(false, otps)
  {
  }

  /** Strictly after expiry the entry is purged and the guess is not even compared. */
  lemma ExpiredEntryPurged(otps: map<string, Entry>, correo: string, ingreso: string, now: Ticks)
    requires correo in otps && now > otps[correo].expira
    ensures Checked(otps, correo, ingreso, now) == Verdict(false, otps - {correo})
  {
  }

  /** At the expiry instant itself the guess is still compared. */
  lemma ComparedAtExpiry(otps: map<string, Entry>, correo: string, ingreso: string)
    requires correo in otps
    ensures Checked(otps, correo, ingreso, otps[correo].expira).accepted <==> otps[correo].codigo == ingreso
  {
  }

  /** A wrong guess keeps the entry, so the right code still works afterwards. */
  lemma WrongGuessKeepsEntry(otps: map<string, Entry>, correo: string, wrong: string, now: Ticks, later: Ticks)
    requires correo in otps && now <= later <= otps[correo].expira
    requires wrong != otps[correo].codigo
    ensures Checked(otps, correo, wrong, now) == Verdict(false, otps)
    ensures Checked(Checked(otps, correo, wrong, now).otps, correo, otps[correo].codigo, later).accepted
  {
  }

  /** A correct guess consumes the entry: the same guess then fails. */
  lemma CorrectGuessConsumed(otps: map<string, Entry>, correo: string, now: Ticks, again: Ticks)
    requires correo in otps && now <= otps[correo].expira
    ensures Checked(otps, correo, otps[correo].codigo, now) == Verdict(true, otps - {correo})
    ensures !Checked(otps - {correo}, correo, otps[correo].codigo, again).accepted
  {
  }

  /** A code issued at `t` is accepted by a check up to five minutes later. */
  lemma IssuedCodeAccepted(otps: map<string, Entry>, correo: string, draw: int, t: Ticks, now: Ticks)
    requires DrawLow <= draw < DrawHigh
    requires now <= t + ValidityTicks
    ensures Checked(Issued(otps, correo, CodeOf(draw), t), correo, CodeOf(draw), now).accepted
  {
  }

  /** ... and rejected by any check more than five minutes later. */
  lemma IssuedCodeExpires(otps: map<string, Entry>, correo: string, codigo: string, t: Ticks, now: Ticks, ingreso: string)
    requires now > t + ValidityTicks
    ensures !Checked(Issued(otps, correo, codigo, t), correo, ingreso, now).accepted
  {
  }

  /** Issuing again for the same key invalidates the earlier code unless the new draw repeats it. */
  lemma ReissueInvalidates(otps: map<string, Entry>, correo: string, first: int, second: int, t1: Ticks, t2: Ticks, now: Ticks)
    requires DrawLow <= first < DrawHigh && DrawLow <= second < DrawHigh
    requires now <= t2 + ValidityTicks
    ensures Checked(Issued(Issued(otps, correo, CodeOf(first), t1), correo, CodeOf(second), t2), correo, CodeOf(first), now).accepted
            <==> first == second
  {
  }

  /**
   * The service end to end: issue, a wrong guess, the right code, the right
   * code again.
   */
  method SingleUseScenario(correo: string, t: Ticks, draw: int) returns (wrong: bool, right: bool, again: bool)
    requires DrawLow <= draw < DrawHigh
    ensures !wrong && right && !again
  {
    var service := new OtpService();
    var codigo := service.Generar(correo, t, draw);
    wrong := service.Validar(correo, "000000", t + 1);
    right := service.Validar(correo, codigo, t + 2);
    again := service.Validar(correo, codigo, t + 3);
  }
}
