/**
 * The records of the application (`Usuario`, `Entidad`, `Beneficiario`,
 * `Subsidio`) and the database context holding one table per record type.
 * A table maps the primary key to the row; identity columns are counters.
 */
module Store {
  import opened Wrappers

  datatype Usuario = Usuario(nombre: string, correo: string, contrasena: string, rol: Option<string>, estado: string)

  datatype Entidad = Entidad(nombre: string, email: string, direccion: string, usuarioId: int)

  /** `EntidadId` is nullable: the controllers test it against null. */
  datatype Beneficiario = Beneficiario(nombre: string, dui: string, direccion: string, telefono: string,
                                       estadoSubsidio: string, entidadId: Option<int>)

  /** `Monto` is a decimal with two places, kept here as an integer number of cents. */
  datatype Subsidio = Subsidio(nombrePrograma: string, tipo: string, monto: int, fechaAsignacion: int,
                               estado: string, beneficiarioId: int)

  /** Every key was handed out by an identity counter now at `next`. */
  ghost predicate KeysBelow<T>(m: map<int, T>, next: int) {
    next >= 1 && forall k :: k in m ==> 1 <= k < next
  }

  /** `Usuarios.Any(u => u.Correo == correo)` */
  predicate CorreoRegistrado(usuarios: map<int, Usuario>, correo: string) {
    exists k :: k in usuarios && usuarios[k].correo == correo
  }

  /** No two users share an e-mail address. */
  ghost predicate CorreosUnicos(usuarios: map<int, Usuario>) {
    forall j, k :: j in usuarios && k in usuarios && j != k ==> usuarios[j].correo != usuarios[k].correo
  }

  /** Everything the context holds, as one value. */
  datatype Tables = Tables(usuarios: map<int, Usuario>, entidades: map<int, Entidad>,
                           beneficiarios: map<int, Beneficiario>, subsidios: map<int, Subsidio>,
                           nextUsuario: int, nextEntidad: int, nextBeneficiario: int, nextSubsidio: int)

  /** Every entity belongs to an existing user. */
  ghost predicate UsuariosExisten(t: Tables) {
    forall k :: k in t.entidades ==> t.entidades[k].usuarioId in t.usuarios
  }

  /** Every beneficiary that names an entity names an existing one. */
  ghost predicate EntidadesExisten(t: Tables) {
    forall k :: k in t.beneficiarios && t.beneficiarios[k].entidadId.Some? ==> t.beneficiarios[k].entidadId.value in t.entidades
  }

  /** Every subsidy names an existing beneficiary. */
  ghost predicate BeneficiariosExisten(t: Tables) {
    forall k :: k in t.subsidios ==> t.subsidios[k].beneficiarioId in t.beneficiarios
  }

  /** `AppDbContext` */
  class Database {
    var usuarios: map<int, Usuario>
    var entidades: map<int, Entidad>
    var beneficiarios: map<int, Beneficiario>
    var subsidios: map<int, Subsidio>
    var nextUsuario: int
    var nextEntidad: int
    var nextBeneficiario: int
    var nextSubsidio: int

    ghost predicate Valid()
      reads this
    {
      && KeysBelow(usuarios, nextUsuario)
      && KeysBelow(entidades, nextEntidad)
      && KeysBelow(beneficiarios, nextBeneficiario)
      && KeysBelow(subsidios, nextSubsidio)
    }

    function State(): Tables
      reads this
    {
      Tables(usuarios, entidades, beneficiarios, subsidios, nextUsuario, nextEntidad, nextBeneficiario, nextSubsidio)
    }

    constructor ()
      ensures Valid()
      ensures State() == Tables(map[], map[], map[], map[], 1, 1, 1, 1)
    {
      usuarios, entidades, beneficiarios, subsidios := map[], map[], map[], map[];
      nextUsuario, nextEntidad, nextBeneficiario, nextSubsidio := 1, 1, 1, 1;
    }

    /** `Usuarios.Add(u)` and `SaveChanges()`: the row gets the next identity value. */
    method AddUsuario(u: Usuario) returns (id: int)
      requires Valid()
      modifies this
      ensures Valid()
      ensures id == old(nextUsuario) && id !in old(usuarios)
      ensures State() == old(State()).(usuarios := old(usuarios)[id := u], nextUsuario := id + 1)
    {
      id := nextUsuario;
      usuarios := usuarios[id := u];
      nextUsuario := nextUsuario + 1;
    }

    method AddEntidad(e: Entidad) returns (id: int)
      requires Valid()
      modifies this
      ensures Valid()
      ensures id == old(nextEntidad) && id !in old(entidades)
      ensures State() == old(State()).(entidades := old(entidades)[id := e], nextEntidad := id + 1)
    {
      id := nextEntidad;
      entidades := entidades[id := e];
      nextEntidad := nextEntidad + 1;
    }

    method AddBeneficiario(b: Beneficiario) returns (id: int)
      requires Valid()
      modifies this
      ensures Valid()
      ensures id == old(nextBeneficiario) && id !in old(beneficiarios)
      ensures State() == old(State()).(beneficiarios := old(beneficiarios)[id := b], nextBeneficiario := id + 1)
    {
      id := nextBeneficiario;
      beneficiarios := beneficiarios[id := b];
      nextBeneficiario := nextBeneficiario + 1;
    }

    method AddSubsidio(s: Subsidio) returns (id: int)
      requires Valid()
      modifies this
      ensures Valid()
      ensures id == old(nextSubsidio) && id !in old(subsidios)
      ensures forall k :: k in old(subsidios) ==> k < id
      ensures State() == old(State()).(subsidios := old(subsidios)[id := s], nextSubsidio := id + 1)
    {
      id := nextSubsidio;
      subsidios := subsidios[id := s];
      nextSubsidio := nextSubsidio + 1;
    }
  }
}
