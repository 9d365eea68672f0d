/** The authentication middleware (auth.middleware.js): the bearer token is
    taken from the `Authorization` header, handed to a verifier, and the
    decoded claims are then checked against the roles a route allows. */
module Auth {
  import opened Common

  // ---------------------------------------------------------------------------
  // String splitting, as `String.prototype.split` with a one-character
  // separator

  /** The pieces of `s` between occurrences of `sep`; there is always at least
      one, and none contains the separator. */
  function Split(s: string, sep: char): (p: seq<string>)
    ensures |p| >= 1
    ensures forall i :: 0 <= i < |p| ==> sep !in p[i]
    decreases |s|
  {
    if s == [] then [""]
    else
      var resto := Split(s[1..], sep);
      if s[0] == sep then [""] + resto
      else [[s[0]] + resto[0]] + resto[1..]
  }

  /** Puts the pieces back together with the separator between them. */
  function Join(p: seq<string>, sep: char): string
    requires |p| >= 1
    decreases |p|
  {
    if |p| == 1 then p[0] else p[0] + [sep] + Join(p[1..], sep)
  }

  /** Splitting loses nothing: joining the pieces gives the string back. */
  lemma {:induction false} JoinSplit(s: string, sep: char)
    ensures Join(Split(s, sep), sep) == s
    decreases |s|
  {
    if s != [] {
      var resto := Split(s[1..], sep);
      JoinSplit(s[1..], sep);
      if s[0] != sep {
        if |resto| == 1 {
          assert Split(s, sep) == [[s[0]] + resto[0]];
        } else {
          var p := Split(s, sep);
          assert p[1..] == resto[1..];
          assert Join(resto, sep) == resto[0] + [sep] + Join(resto[1..], sep);
        }
      }
    }
  }

  /** Joining pieces that hold no separator and splitting again gives the
      pieces back. */
  lemma {:induction false} SplitJoin(p: seq<string>, sep: char)
    requires |p| >= 1
    requires forall i :: 0 <= i < |p| ==> sep !in p[i]
    ensures Split(Join(p, sep), sep) == p
    decreases |p|
  {
    if |p| == 1 {
      SplitSinSeparador(p[0], sep);
    } else {
      SplitJoin(p[1..], sep);
      SplitConcat(p[0], Join(p[1..], sep), sep);
      assert p == [p[0]] + p[1..];
    }
  }

  lemma {:induction false} SplitSinSeparador(s: string, sep: char)
    requires sep !in s
    ensures Split(s, sep) == [s]
    decreases |s|
  {
    if s != [] {
      assert sep !in s[1..] by {
        assert forall i :: 0 <= i < |s[1..]| ==> s[1..][i] == s[i + 1];
      }
      SplitSinSeparador(s[1..], sep);
      assert s[0] != sep;
      assert [s[0]] + s[1..] == s;
    }
  }

  /** A leading piece without the separator is split off whole. */
  lemma {:induction false} SplitConcat(a: string, b: string, sep: char)
    requires sep !in a
    ensures Split(a + [sep] + b, sep) == [a] + Split(b, sep)
    decreases |a|
  {
    if a == [] {
      assert [] + [sep] + b == [sep] + b;
      assert ([sep] + b)[1..] == b;
    } else {
      assert sep !in a[1..] by {
        assert forall i :: 0 <= i < |a[1..]| ==> a[1..][i] == a[i + 1];
      }
      SplitConcat(a[1..], b, sep);
      assert (a + [sep] + b)[1..] == a[1..] + [sep] + b;
      assert [a[0]] + a[1..] == a;
    }
  }

  // ---------------------------------------------------------------------------
  // verificarToken

  /** The claims the login handler signs and `verificarRol` reads. */
  datatype Claims = Claims(id: int, nombre: Option<string>, correo: Option<string>, rol: Option<string>)

  /** What the token verifier reports: the decoded claims, or the name of the
      error it threw. */
  datatype Verificacion = Valido(claims: Claims) | Fallo(nombreError: string)

  datatype Motivo = TokenNoProporcionado | FormatoInvalido | TokenExpirado | TokenInvalido
                  | NoAutenticado | AccesoDenegado

  /** Either the request goes on to the next handler, with the user attached,
      or it is answered with a status. */
  datatype Decision = Continuar(usuario: Claims) | Rechazo(status: Status, motivo: Motivo)

  const ERROR_EXPIRADO: string := "TokenExpiredError"

  /** The second space-separated piece of the header; None when there is no
      such piece (`undefined`). */
  function Token(header: string): (t: Option<string>)
    ensures t.Some? ==> ' ' !in t.value
  {
    var p := Split(header, ' ');
    if |p| >= 2 then Some(p[1]) else None
  }

  /** For the documented form `Bearer <token>`, the token is what follows the
      space. */
  lemma TokenDeBearer(token: string)
    requires ' ' !in token
    ensures Token("Bearer " + token) == Some(token)
  {
    assert "Bearer " + token == "Bearer" + [' '] + token;
    SplitConcat("Bearer", token, ' ');
    SplitSinSeparador(token, ' ');
  }

  /** A header without a space has no token. */
  lemma SinEspacioSinToken(header: string)
    requires ' ' !in header
    ensures Token(header) == None
  {
    SplitSinSeparador(header, ' ');
  }

  /** The decision of `verificarToken`, with the token verifier (signature,
      secret, expiry) as a parameter. */
  function VerificarToken(header: Option<string>, verificar: string -> Verificacion): (d: Decision)
    ensures !TruthyStr(header) ==> d == Rechazo(Forbidden, TokenNoProporcionado)
    ensures (TruthyStr(header) && !TruthyStr(Token(header.value))) ==> d == Rechazo(Forbidden, FormatoInvalido)
    ensures d.Rechazo? && d.status == Forbidden <==> !TruthyStr(header) || !TruthyStr(Token(header.value))
    ensures d.Continuar? <==>
      TruthyStr(header) && TruthyStr(Token(header.value)) && verificar(Token(header.value).value).Valido?
    ensures d.Continuar? ==> verificar(Token(header.value).value) == Valido(d.usuario)
    ensures d.Rechazo? && d.status == Unauthorized ==>
      var v := verificar(Token(header.value).value);
      v.Fallo? && (d.motivo == TokenExpirado <==> v.nombreError == ERROR_EXPIRADO)
    ensures d.Rechazo? ==> d.status == Forbidden || d.status == Unauthorized
  {
    if !TruthyStr(header) then Rechazo(Forbidden, TokenNoProporcionado)
    else
      var token := Token(header.value);
      if !TruthyStr(token) then Rechazo(Forbidden, FormatoInvalido)
      else match verificar(token.value)
        case Valido(claims) => Continuar(claims)
        case Fallo(nombreError) =>
          if nombreError == ERROR_EXPIRADO then Rechazo(Unauthorized, TokenExpirado)
          else Rechazo(Unauthorized, TokenInvalido)
  }

  // ---------------------------------------------------------------------------
  // verificarRol

  /** The decision of the middleware built by `verificarRol(...permitidos)`. */
  function VerificarRol(usuario: Option<Claims>, permitidos: seq<string>): (d: Decision)
    ensures usuario.None? ==> d == Rechazo(Unauthorized, NoAutenticado)
    ensures d.Continuar? <==> usuario.Some? && usuario.value.rol.Some? && usuario.value.rol.value in permitidos
    ensures d.Continuar? ==> d.usuario == usuario.value
    ensures (usuario.Some? && !d.Continuar?) ==> d == Rechazo(Forbidden, AccesoDenegado)
  {
    if usuario.None? then Rechazo(Unauthorized, NoAutenticado)
    else if usuario.value.rol.None? || usuario.value.rol.value !in permitidos then Rechazo(Forbidden, AccesoDenegado)
    else Continuar(usuario.value)
  }

  /** The two middlewares in a row: a request reaches the handler exactly when
      the header carries a bearer token that verifies and whose role is
      allowed; an empty list of roles lets nobody through. */
  function Proteger(header: Option<string>, verificar: string -> Verificacion, permitidos: seq<string>): Decision
  {
    match VerificarToken(header, verificar)
    case Continuar(claims) => VerificarRol(Some(claims), permitidos)
    case Rechazo(st, m) => Rechazo(st, m)
  }

  lemma ProtegerConcede(header: Option<string>, verificar: string -> Verificacion, permitidos: seq<string>)
    ensures Proteger(header, verificar, permitidos).Continuar? <==>
      && TruthyStr(header) && TruthyStr(Token(header.value))
      && var v := verificar(Token(header.value).value);
         v.Valido? && v.claims.rol.Some? && v.claims.rol.value in permitidos
    ensures permitidos == [] ==> Proteger(header, verificar, permitidos).Rechazo?
  {
  }

  /** With a well-formed bearer header the outcome depends only on what the
      verifier says about the token. */
  lemma ProtegerBearer(token: string, verificar: string -> Verificacion, permitidos: seq<string>)
    requires token != "" && ' ' !in token
    ensures Proteger(Some("Bearer " + token), verificar, permitidos) ==
      match verificar(token)
      case Valido(c) => VerificarRol(Some(c), permitidos)
      case Fallo(e) => Rechazo(Unauthorized, if e == ERROR_EXPIRADO then TokenExpirado else TokenInvalido)
  {
    TokenDeBearer(token);
  }
}
