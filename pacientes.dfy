/** The tenant's patient list (`/pacientes`): the patients of the signed-in clinic,
    ordered by name, narrowed by a case-insensitive search over name, CPF, phone and
    email. */
module Pacientes {
  import opened Text
  import opened Query

  /** A `pacientes` row; the searched columns may be null. */
  datatype Paciente = Paciente(
    id: string,
    nome: Option<string>,
    cpf: Option<string>,
    telefone: Option<string>,
    email: Option<string>,
    instanciaId: string)

  // ---------------------------------------------------------------------------
  // The search filter
  // ---------------------------------------------------------------------------

  /** `campo?.toLowerCase().includes(termo)`: a null column never matches. */
  predicate CampoInclui(campo: Option<string>, termo: string)
  {
    campo.Some? && Contains(LowerStr(campo.value), termo)
  }

  /** The four columns searched, with the already lower-cased term. */
  predicate Corresponde(p: Paciente, termo: string)
  {
    CampoInclui(p.nome, termo) || CampoInclui(p.cpf, termo)
    || CampoInclui(p.telefone, termo) || CampoInclui(p.email, termo)
  }

  /** `pacientesFiltrados`: all patients for an empty term, else those with a column
      containing the lower-cased term; the list order is kept. */
  function PacientesFiltrados(pacientes: seq<Paciente>, termoBusca: string): (r: seq<Paciente>)
    ensures |r| <= |pacientes|
  {
    if termoBusca == [] then pacientes
    else Filter(pacientes, (p: Paciente) => Corresponde(p, LowerStr(termoBusca)))
  }

  /** A patient is listed iff it is in the list and the term is empty or matches one of
      its four columns ignoring case; an empty term lists everyone. */
  lemma FiltroMembership(pacientes: seq<Paciente>, termoBusca: string, p: Paciente)
    ensures p in PacientesFiltrados(pacientes, termoBusca)
      <==> p in pacientes && (termoBusca == [] || Corresponde(p, LowerStr(termoBusca)))
    ensures termoBusca == [] ==> PacientesFiltrados(pacientes, termoBusca) == pacientes
  {
  }

  /** The filter keeps the list's order: the listed patients are an ordered selection
      (a subsequence) of the loaded ones. */
  predicate Subsequence(a: seq<Paciente>, b: seq<Paciente>)
    decreases |b|
  {
    a == [] || (b != [] && (if a[0] == b[0] then Subsequence(a[1..], b[1..]) else Subsequence(a, b[1..])))
  }

  lemma {:induction false} FilterIsSubsequence(pacientes: seq<Paciente>, f: Paciente -> bool)
    ensures Subsequence(Filter(pacientes, f), pacientes)
  {
    if pacientes != [] {
      FilterIsSubsequence(pacientes[1..], f);
      var rest := Filter(pacientes[1..], f);
      if f(pacientes[0]) {
        assert Filter(pacientes, f) == [pacientes[0]] + rest;
      } else {
        assert Filter(pacientes, f) == rest;
        SubsequenceDropHead(rest, pacientes);
      }
    }
  }

  /** A subsequence of the tail is a subsequence of the whole. */
  lemma {:induction false} SubsequenceDropHead(a: seq<Paciente>, b: seq<Paciente>)
    requires b != [] && Subsequence(a, b[1..])
    ensures Subsequence(a, b)
    decreases |b|, 0
  {
    if a != [] && a[0] == b[0] {
      SubsequenceDropFirst(a, b[1..]);
    }
  }

  /** Dropping the first element of a subsequence keeps a subsequence. */
  lemma {:induction false} SubsequenceDropFirst(a: seq<Paciente>, b: seq<Paciente>)
    requires a != [] && Subsequence(a, b)
    ensures Subsequence(a[1..], b)
    decreases |b|, 1
  {
    if a[0] == b[0] {
      if a[1..] != [] {
        SubsequenceDropHead(a[1..], b);
      }
    } else {
      SubsequenceDropFirst(a, b[1..]);
      if a[1..] != [] {
        SubsequenceDropHead(a[1..], b);
      }
    }
  }

  lemma FiltroKeepsOrder(pacientes: seq<Paciente>, termoBusca: string)
    ensures Subsequence(PacientesFiltrados(pacientes, termoBusca), pacientes)
  {
    if termoBusca == [] {
      SubsequenceReflexive(pacientes);
    } else {
      FilterIsSubsequence(pacientes, (p: Paciente) => Corresponde(p, LowerStr(termoBusca)));
    }
  }

  lemma {:induction false} SubsequenceReflexive(a: seq<Paciente>)
    ensures Subsequence(a, a)
  {
    if a != [] {
      SubsequenceReflexive(a[1..]);
    }
  }

  /** Lower-casing twice is lower-casing once. */
  lemma LowerStrIdempotent(s: string)
    ensures LowerStr(LowerStr(s)) == LowerStr(s)
  {
  }

  /** Case does not matter: terms equal up to case give the same list. */
  lemma FiltroIgnoresCase(pacientes: seq<Paciente>, t1: string, t2: string)
    requires LowerStr(t1) == LowerStr(t2)
    ensures PacientesFiltrados(pacientes, t1) == PacientesFiltrados(pacientes, t2)
  {
    assert |t1| == |LowerStr(t1)| && |t2| == |LowerStr(t2)|;
  }

  /** A column that contains the term as typed, in any case, makes the patient match. */
  lemma ContainsIgnoringCase(campo: string, termo: string)
    requires Contains(campo, termo)
    ensures CampoInclui(Some(campo), LowerStr(termo))
  {
    var i :| 0 <= i <= |campo| - |termo| && OccursAt(campo, termo, i);
    var lc, lt := LowerStr(campo), LowerStr(termo);
    forall k | 0 <= k < |termo|
      ensures lc[i + k] == lt[k]
    {
      assert campo[i + k] == campo[i..i + |termo|][k];
    }
    assert lc[i..i + |termo|] == lt;
    assert OccursAt(lc, lt, i);
  }

  // ---------------------------------------------------------------------------
  // Loading the tenant's patients
  // ---------------------------------------------------------------------------

  /** Character-by-character order of two names. */
  predicate LexLe(a: string, b: string)
  {
    a == [] || (b != [] && (a[0] < b[0] || (a[0] == b[0] && LexLe(a[1..], b[1..]))))
  }

  lemma {:induction false} LexLeTotal(a: string, b: string)
    ensures LexLe(a, b) || LexLe(b, a)
  {
    if a != [] && b != [] && a[0] == b[0] {
      LexLeTotal(a[1..], b[1..]);
    }
  }

  lemma {:induction false} LexLeTransitive(a: string, b: string, c: string)
    requires LexLe(a, b) && LexLe(b, c)
    ensures LexLe(a, c)
  {
    if a != [] && b != [] && c != [] && a[0] == b[0] && b[0] == c[0] {
      LexLeTransitive(a[1..], b[1..], c[1..]);
    }
  }

  /** `order("nome", { ascending: true })`: names in order, null names last. */
  predicate NomeLe(x: Paciente, y: Paciente)
  {
    y.nome.None? || (x.nome.Some? && LexLe(x.nome.value, y.nome.value))
  }

  lemma NomeLeTotal(x: Paciente, y: Paciente)
    ensures NomeLe(x, y) || NomeLe(y, x)
  {
    if x.nome.Some? && y.nome.Some? {
      LexLeTotal(x.nome.value, y.nome.value);
    }
  }

  lemma NomeLeTransitive(x: Paciente, y: Paciente, z: Paciente)
    requires NomeLe(x, y) && NomeLe(y, z)
    ensures NomeLe(x, z)
  {
    if x.nome.Some? && y.nome.Some? && z.nome.Some? {
      LexLeTransitive(x.nome.value, y.nome.value, z.nome.value);
    }
  }

  predicate OrdenadoPorNome(s: seq<Paciente>)
  {
    forall i, j :: 0 <= i < j < |s| ==> NomeLe(s[i], s[j])
  }

  /** Puts `p` into an ordered list before the first name it does not follow. */
  function Inserir(p: Paciente, s: seq<Paciente>): (r: seq<Paciente>)
    ensures multiset(r) == multiset(s) + multiset{p}
  {
    if s == [] then [p]
    else if NomeLe(p, s[0]) then [p] + s
    else
      assert s == [s[0]] + s[1..];
      [s[0]] + Inserir(p, s[1..])
  }

  lemma {:induction false} InserirOrdenado(p: Paciente, s: seq<Paciente>)
    requires OrdenadoPorNome(s)
    ensures OrdenadoPorNome(Inserir(p, s))
  {
    if s == [] {
    } else if NomeLe(p, s[0]) {
      var r := [p] + s;
      forall i, j | 0 <= i < j < |r| ensures NomeLe(r[i], r[j]) {
        if i == 0 && j > 1 {
          NomeLeTransitive(p, s[0], s[j - 1]);
        }
      }
    } else {
      NomeLeTotal(p, s[0]);
      var tail := s[1..];
      InserirOrdenado(p, tail);
      InserirBelow(s[0], p, tail);
      ConsOrdenado(s[0], Inserir(p, tail));
    }
  }

  /** What every element of `s` and `p` follow, every element of the insertion follows. */
  lemma InserirBelow(q: Paciente, p: Paciente, s: seq<Paciente>)
    requires NomeLe(q, p) && forall k :: 0 <= k < |s| ==> NomeLe(q, s[k])
    ensures forall x :: x in Inserir(p, s) ==> NomeLe(q, x)
  {
    forall x | x in Inserir(p, s) ensures NomeLe(q, x) {
      assert x in multiset(Inserir(p, s));
      if x != p {
        assert x in multiset(s);
      }
    }
  }

  /** An ordered list stays ordered under a head that precedes all of it. */
  lemma ConsOrdenado(q: Paciente, s: seq<Paciente>)
    requires OrdenadoPorNome(s) && forall x :: x in s ==> NomeLe(q, x)
    ensures OrdenadoPorNome([q] + s)
  {
    var r := [q] + s;
    forall i, j | 0 <= i < j < |r| ensures NomeLe(r[i], r[j]) {
      assert r[j] == s[j - 1];
      if i > 0 {
        assert r[i] == s[i - 1];
      }
    }
  }

  /** The rows in name order. */
  function Ordenar(s: seq<Paciente>): (r: seq<Paciente>)
    ensures multiset(r) == multiset(s)
  {
    if s == [] then []
    else
      assert s == [s[0]] + s[1..];
      Inserir(s[0], Ordenar(s[1..]))
  }

  lemma {:induction false} OrdenarOrdenado(s: seq<Paciente>)
    ensures OrdenadoPorNome(Ordenar(s))
  {
    if s != [] {
      OrdenarOrdenado(s[1..]);
      InserirOrdenado(s[0], Ordenar(s[1..]));
    }
  }

  /** `.eq("instancia_id", instId)`. */
  function DaInstancia(instId: string): Paciente -> bool
  {
    (p: Paciente) => p.instanciaId == instId
  }

  /** What the query hands back: the tenant's patients, in name order. */
  function Consulta(rows: seq<Paciente>, instId: string): seq<Paciente>
  {
    Ordenar(Filter(rows, DaInstancia(instId)))
  }

  /** The loaded list holds every row of the tenant, as often as the table does, no row
      of another tenant, and is in name order. */
  lemma ConsultaShape(rows: seq<Paciente>, instId: string)
    ensures var r := Consulta(rows, instId);
      OrdenadoPorNome(r)
      && (forall p :: p in r <==> p in rows && p.instanciaId == instId)
      && multiset(r) == multiset(Filter(rows, DaInstancia(instId)))
  {
    var f := Filter(rows, DaInstancia(instId));
    OrdenarOrdenado(f);
    forall p ensures p in Consulta(rows, instId) <==> p in f {
      assert p in multiset(Consulta(rows, instId)) <==> p in multiset(f);
    }
  }

  /** The page's state. */
  class PacientesPage {
    var pacientes: seq<Paciente>
    var termoBusca: string
    var instanciaId: Option<string>

    constructor()
      ensures pacientes == [] && termoBusca == [] && instanciaId == None
    {
      pacientes, termoBusca, instanciaId := [], [], None;
    }

    /** `carregarPacientes`: remember the session's tenant; without one nothing is
        queried; a query that returns no data leaves the list as it was. */
    method CarregarPacientes(session: map<string, string>, rows: seq<Paciente>, semDados: bool)
      modifies this
      ensures instanciaId == Get(session, "instanciaId") && termoBusca == old(termoBusca)
      ensures !Truthy(instanciaId) || semDados ==> pacientes == old(pacientes)
      ensures Truthy(instanciaId) && !semDados ==> pacientes == Consulta(rows, instanciaId.value)
    {
      var instId := Get(session, "instanciaId");
      instanciaId := instId;
      if !Truthy(instId) {
        return;
      }
      if !semDados {
        pacientes := Consulta(rows, instId.value);
      }
    }

    /** The search box's `onChange`. */
    method SetTermoBusca(valor: string)
      modifies this
      ensures termoBusca == valor && pacientes == old(pacientes) && instanciaId == old(instanciaId)
    {
      termoBusca := valor;
    }

    /** The rows the table shows. */
    function Listados(): (r: seq<Paciente>)
      reads this
      ensures forall p :: p in r <==> p in pacientes && (termoBusca == [] || Corresponde(p, LowerStr(termoBusca)))
    {
      PacientesFiltrados(pacientes, termoBusca)
    }
  }
}
