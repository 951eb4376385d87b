/** The doctor's month view of appointments (`/medico/area/agendamentos`): the
    appointments of the last five years and the next year are counted per day, and
    every weekday from today on is marked as having free places or as full. */
module Agendamentos {
  import opened Text
  import opened Civil

  /** An `agendamentos` row, its timestamp reduced to the local calendar day. */
  datatype Agendamento = Agendamento(medicoId: string, instanciaId: string, data: Date)

  // ---------------------------------------------------------------------------
  // The load window
  // ---------------------------------------------------------------------------

  /** `dataInicial`: 1 January five years before today. */
  function Inicio(hoje: Date): Date
  {
    Date(hoje.year - 5, 1, 1)
  }

  /** `dataFinal`: a year of days after today. */
  function Fim(hoje: Date): Date
  {
    AddDays(hoje, 365)
  }

  /** `diasTotais`: the whole days from `dataInicial` to `dataFinal`. */
  function DiasTotais(hoje: Date): int
    requires ValidDate(hoje) && hoje.year > 5
  {
    AddDaysStep(hoje, 365);
    DayNumber(Fim(hoje)) - DayNumber(Inicio(hoje))
  }

  /** The days the classification loop visits: `dataInicial + i` for `i` in 0..n-1. */
  function Periodo(inicio: Date, n: nat): (dias: seq<Date>)
    ensures |dias| == n && forall i :: 0 <= i < n ==> dias[i] == AddDays(inicio, i)
  {
    seq(n, (i: int) requires 0 <= i < n => AddDays(inicio, i))
  }

  /** For a today in years 6..9998 the window is not empty and every day in it has a
      four-digit year. */
  lemma WindowKeys(hoje: Date)
    requires ValidDate(hoje) && 5 < hoje.year < 9999
    ensures DiasTotais(hoje) >= 365
    ensures forall i: nat :: i <= DiasTotais(hoje) ==> KeyDate(AddDays(Inicio(hoje), i))
  {
    var inicio, fim := Inicio(hoje), Fim(hoje);
    AddDaysStep(hoje, 365);
    assert Before(inicio, hoje);
    BeforeIsDayOrder(inicio, hoje);
    DayNumberWithinYear(hoje);
    DaysBeforeNextYear(hoje.year + 1);
    assert DayNumber(Date(hoje.year + 2, 1, 1)) == DaysBeforeYear(hoje.year + 2);
    assert DayNumber(fim) < DayNumber(Date(hoje.year + 2, 1, 1));
    forall i: nat | i <= DiasTotais(hoje)
      ensures KeyDate(AddDays(inicio, i))
    {
      var d := AddDays(inicio, i);
      AddDaysStep(inicio, i);
      BeforeIsDayOrder(d, Date(hoje.year + 2, 1, 1));
    }
  }

  /** The window is not empty. */
  lemma WindowSize(hoje: Date)
    requires ValidDate(hoje) && 5 < hoje.year < 9999
    ensures DiasTotais(hoje) >= 365
  {
    WindowKeys(hoje);
  }

  /** One day of the window, for the loop that visits it. */
  lemma WindowKey(hoje: Date, i: nat)
    requires ValidDate(hoje) && 5 < hoje.year < 9999 && i <= DiasTotais(hoje)
    ensures KeyDate(AddDays(Inicio(hoje), i))
  {
    WindowKeys(hoje);
  }

  /** The rows the page fetches: this doctor's, in this tenant, from `dataInicial` on and
      before `dataFinal`. */
  function Buscar(rows: seq<Agendamento>, id: string, instId: string, inicio: Date, fim: Date): (r: seq<Agendamento>)
    ensures forall a :: a in r <==> a in rows && a.medicoId == id && a.instanciaId == instId
                                    && !Before(a.data, inicio) && Before(a.data, fim)
  {
    if rows == [] then []
    else
      var a := rows[0];
      (if a.medicoId == id && a.instanciaId == instId && !Before(a.data, inicio) && Before(a.data, fim)
       then [a] else []) + Buscar(rows[1..], id, instId, inicio, fim)
  }

  /** The fetched rows are rows of the table, so their dates fit the key format too. */
  lemma FetchedHaveKeys(rows: seq<Agendamento>, id: string, instId: string, inicio: Date, fim: Date)
    requires forall i :: 0 <= i < |rows| ==> KeyDate(rows[i].data)
    ensures var r := Buscar(rows, id, instId, inicio, fim);
      forall i :: 0 <= i < |r| ==> KeyDate(r[i].data)
  {
    var r := Buscar(rows, id, instId, inicio, fim);
    forall i | 0 <= i < |r| ensures KeyDate(r[i].data) {
      assert r[i] in r;
      var j :| 0 <= j < |rows| && rows[j] == r[i];
    }
  }

  /** The yyyy-MM-dd key of each fetched row. */
  function Chaves(rows: seq<Agendamento>): (ks: seq<string>)
    requires forall i :: 0 <= i < |rows| ==> KeyDate(rows[i].data)
    ensures |ks| == |rows| && forall i :: 0 <= i < |rows| ==> ks[i] == Key(rows[i].data)
  {
    seq(|rows|, i requires 0 <= i < |rows| => Key(rows[i].data))
  }

  // ---------------------------------------------------------------------------
  // Counting per day
  // ---------------------------------------------------------------------------

  /** How many times `k` occurs in `s`. */
  function Occurrences(s: seq<string>, k: string): nat
  {
    if s == [] then 0 else Occurrences(s[..|s| - 1], k) + (if s[|s| - 1] == k then 1 else 0)
  }

  /** A key occurs at least once exactly when it is in the sequence. */
  lemma {:induction false} OccurrencesPositive(s: seq<string>, k: string)
    ensures Occurrences(s, k) > 0 <==> k in s
  {
    if s != [] {
      OccurrencesPositive(s[..|s| - 1], k);
      assert s == s[..|s| - 1] + [s[|s| - 1]];
    }
  }

  /** Occurrences add up over a concatenation. */
  lemma {:induction false} OccurrencesAppend(a: seq<string>, b: seq<string>, k: string)
    ensures Occurrences(a + b, k) == Occurrences(a, k) + Occurrences(b, k)
    decreases |b|
  {
    if b != [] {
      assert (a + b)[..|a + b| - 1] == a + b[..|b| - 1];
      OccurrencesAppend(a, b[..|b| - 1], k);
    } else {
      assert a + b == a;
    }
  }

  /** The count per day, as the `contagemPorDia` map ends up. */
  function Contagem(chaves: seq<string>): map<string, nat>
  {
    map k | k in chaves :: Occurrences(chaves, k)
  }

  /** `contagemPorDia`: the `forEach` over the fetched rows. */
  method ContarPorDia(chaves: seq<string>) returns (contagemPorDia: map<string, nat>)
    ensures contagemPorDia == Contagem(chaves)
  {
    contagemPorDia := map[];
    var i := 0;
    while i < |chaves|
      invariant 0 <= i <= |chaves|
      invariant forall k :: k in contagemPorDia <==> k in chaves[..i]
      invariant forall k :: k in contagemPorDia ==> contagemPorDia[k] == Occurrences(chaves[..i], k)
    {
      var dataFormatada := chaves[i];
      assert chaves[..i + 1] == chaves[..i] + [dataFormatada];
      assert chaves[..i + 1][..i] == chaves[..i];
      if dataFormatada in contagemPorDia {
        contagemPorDia := contagemPorDia[dataFormatada := contagemPorDia[dataFormatada] + 1];
      } else {
        OccurrencesPositive(chaves[..i], dataFormatada);
        contagemPorDia := contagemPorDia[dataFormatada := 1];
      }
      i := i + 1;
    }
    assert chaves[..i] == chaves;
  }

  /** How many rows fall on day `d`. */
  function RowsOnDay(rows: seq<Agendamento>, d: Date): nat
  {
    if rows == [] then 0
    else RowsOnDay(rows[..|rows| - 1], d) + (if rows[|rows| - 1].data == d then 1 else 0)
  }

  /** As keys are injective, the count of a day's key is the number of rows on that day. */
  lemma {:induction false} CountIsRowsOnThatDay(rows: seq<Agendamento>, d: Date)
    requires forall i :: 0 <= i < |rows| ==> KeyDate(rows[i].data)
    requires KeyDate(d)
    ensures Occurrences(Chaves(rows), Key(d)) == RowsOnDay(rows, d)
    decreases |rows|
  {
    if rows != [] {
      var init, last := rows[..|rows| - 1], rows[|rows| - 1];
      CountIsRowsOnThatDay(init, d);
      var ks, ki := Chaves(rows), Chaves(init);
      assert ks[..|ks| - 1] == ki;
      assert Occurrences(ks, Key(d)) == Occurrences(ki, Key(d)) + (if Key(last.data) == Key(d) then 1 else 0);
      if Key(last.data) == Key(d) {
        KeyInjective(last.data, d);
      }
    }
  }

  // ---------------------------------------------------------------------------
  // Classifying the days
  // ---------------------------------------------------------------------------

  const LimiteAgendamentosPorDia := 18

  /** Where the loop puts a day: in `comVagas`, in `semVagas`, or nowhere. */
  datatype Vaga = ComVagas | SemVagas | Fora

  /** `contagemPorDia.get(dataFormatada) || 0`. */
  function Quantidade(contagem: map<string, nat>, d: Date): nat
    requires KeyDate(d)
  {
    if Key(d) in contagem then contagem[Key(d)] else 0
  }

  predicate MaioDois(d: Date)
  {
    d.month == 5 && d.day == 2
  }

  /** One turn of the classification loop. */
  function Classificar(d: Date, hoje: Date, contagem: map<string, nat>): Vaga
    requires KeyDate(d)
  {
    if IsWeekend(d) then Fora
    else if Before(d, hoje) then Fora
    else if MaioDois(d) then ComVagas
    else if Quantidade(contagem, d) >= LimiteAgendamentosPorDia then SemVagas
    else ComVagas
  }

  /** The days of `dias` put into the list `v`, in order. */
  function DiasDaClasse(dias: seq<Date>, v: Vaga, hoje: Date, contagem: map<string, nat>): (r: seq<Date>)
    requires forall i :: 0 <= i < |dias| ==> KeyDate(dias[i])
    ensures |r| <= |dias|
  {
    if dias == [] then []
    else
      var last := dias[|dias| - 1];
      DiasDaClasse(dias[..|dias| - 1], v, hoje, contagem)
      + (if Classificar(last, hoje, contagem) == v then [last] else [])
  }

  /** A day is in the list `v` iff it was visited and classified as `v`. */
  lemma {:induction false} DiasDaClasseMembro(dias: seq<Date>, v: Vaga, hoje: Date, contagem: map<string, nat>)
    requires forall i :: 0 <= i < |dias| ==> KeyDate(dias[i])
    ensures forall d :: d in DiasDaClasse(dias, v, hoje, contagem) <==> d in dias && Classificar(d, hoje, contagem) == v
  {
    if dias != [] {
      var init, last := dias[..|dias| - 1], dias[|dias| - 1];
      DiasDaClasseMembro(init, v, hoje, contagem);
      assert dias == init + [last];
    }
  }

  /** One more visited day adds it to the list it belongs to. */
  lemma DiasDaClasseSnoc(dias: seq<Date>, d: Date, v: Vaga, hoje: Date, contagem: map<string, nat>)
    requires forall i :: 0 <= i < |dias| ==> KeyDate(dias[i])
    requires KeyDate(d)
    ensures DiasDaClasse(dias + [d], v, hoje, contagem)
            == DiasDaClasse(dias, v, hoje, contagem) + (if Classificar(d, hoje, contagem) == v then [d] else [])
  {
    assert (dias + [d])[..|dias|] == dias;
  }

  /** The period grows by its next day. */
  lemma PeriodoSnoc(inicio: Date, i: nat)
    ensures Periodo(inicio, i + 1) == Periodo(inicio, i) + [AddDays(inicio, i)]
  {
  }

  /** The body of the loop for one day: `continue` on weekends and past days, otherwise
      the day is appended to one of the two lists. */
  method ColocarDia(data: Date, hoje: Date, contagem: map<string, nat>, comVagas: seq<Date>, semVagas: seq<Date>)
    returns (comVagas': seq<Date>, semVagas': seq<Date>)
    requires KeyDate(data)
    ensures comVagas' == comVagas + (if Classificar(data, hoje, contagem) == ComVagas then [data] else [])
    ensures semVagas' == semVagas + (if Classificar(data, hoje, contagem) == SemVagas then [data] else [])
  {
    comVagas', semVagas' := comVagas, semVagas;
    if IsWeekend(data) {
      return;
    }
    if Before(data, hoje) {
      return;
    }
    var quantidadeAgendamentos := Quantidade(contagem, data);
    if MaioDois(data) {
      comVagas' := comVagas + [data];
    } else if quantidadeAgendamentos >= LimiteAgendamentosPorDia {
      semVagas' := semVagas + [data];
    } else {
      comVagas' := comVagas + [data];
    }
  }

  /** Where a visited day ends up: weekends and past days in neither list, 2 May always
      with free places, any other day full exactly from 18 appointments on; never in both. */
  lemma ClassificationCases(dias: seq<Date>, hoje: Date, contagem: map<string, nat>, d: Date)
    requires forall i :: 0 <= i < |dias| ==> KeyDate(dias[i])
    requires d in dias
    ensures var com := DiasDaClasse(dias, ComVagas, hoje, contagem);
      var sem := DiasDaClasse(dias, SemVagas, hoje, contagem);
      !(d in com && d in sem)
      && (IsWeekend(d) || Before(d, hoje) ==> d !in com && d !in sem)
      && (!IsWeekend(d) && !Before(d, hoje) && MaioDois(d) ==> d in com)
      && (!IsWeekend(d) && !Before(d, hoje) && !MaioDois(d) ==>
            (d in sem <==> Quantidade(contagem, d) >= LimiteAgendamentosPorDia)
            && (d in com <==> Quantidade(contagem, d) < LimiteAgendamentosPorDia))
  {
    DiasDaClasseMembro(dias, ComVagas, hoje, contagem);
    DiasDaClasseMembro(dias, SemVagas, hoje, contagem);
  }

  // ---------------------------------------------------------------------------
  // The calendar cells
  // ---------------------------------------------------------------------------

  /** `desabilitarDatas`: Saturdays and Sundays. */
  predicate DesabilitarDatas(d: Date)
    requires d.year >= 1
  {
    IsWeekend(d)
  }

  datatype Disponibilidade = Desabilitado | Disponivel | Indisponivel | Neutro

  /** `verificarDisponibilidade`: weekend first, then the free list, then the full list. */
  function VerificarDisponibilidade(data: Date, comVagas: seq<Date>, semVagas: seq<Date>): Disponibilidade
    requires data.year >= 1
  {
    if DesabilitarDatas(data) then Desabilitado
    else if data in comVagas then Disponivel
    else if data in semVagas then Indisponivel
    else Neutro
  }

  /** The route a click on a cell opens, if any. */
  function AoClicar(data: Date, comVagas: seq<Date>, semVagas: seq<Date>): (r: Option<string>)
    requires KeyDate(data)
    ensures r.None? <==> IsWeekend(data)
  {
    if VerificarDisponibilidade(data, comVagas, semVagas) != Desabilitado
    then Some("/medico/area/agendamentos/dia/" + Key(data))
    else None
  }

  /** After a load, a visited day shows grey on weekends, green or red from today on, and
      plain (neither colour) in the past. */
  lemma CellAfterLoad(dias: seq<Date>, hoje: Date, contagem: map<string, nat>, d: Date)
    requires forall i :: 0 <= i < |dias| ==> KeyDate(dias[i])
    requires d in dias
    ensures var com := DiasDaClasse(dias, ComVagas, hoje, contagem);
      var sem := DiasDaClasse(dias, SemVagas, hoje, contagem);
      var v := VerificarDisponibilidade(d, com, sem);
      (v == Desabilitado <==> IsWeekend(d))
      && (v == Neutro <==> !IsWeekend(d) && Before(d, hoje))
      && (v == Disponivel <==> Classificar(d, hoje, contagem) == ComVagas)
      && (v == Indisponivel <==> Classificar(d, hoje, contagem) == SemVagas)
  {
    ClassificationCases(dias, hoje, contagem, d);
  }

  // ---------------------------------------------------------------------------
  // The page
  // ---------------------------------------------------------------------------

  /** The per-day count of the doctor's appointments in the load window. */
  function ContagemDe(rows: seq<Agendamento>, id: string, instId: string, hoje: Date): map<string, nat>
    requires forall i :: 0 <= i < |rows| ==> KeyDate(rows[i].data)
  {
    FetchedHaveKeys(rows, id, instId, Inicio(hoje), Fim(hoje));
    Contagem(Chaves(Buscar(rows, id, instId, Inicio(hoje), Fim(hoje))))
  }

  /** The days of the load window put into the list `v`. */
  function VagasNaJanela(hoje: Date, contagem: map<string, nat>, v: Vaga): seq<Date>
    requires ValidDate(hoje) && 5 < hoje.year < 9999
  {
    WindowKeys(hoje);
    DiasDaClasse(Periodo(Inicio(hoje), DiasTotais(hoje) + 1), v, hoje, contagem)
  }

  /** The two lists a successful load leaves. */
  function ComVagasDe(rows: seq<Agendamento>, id: string, instId: string, hoje: Date): seq<Date>
    requires ValidDate(hoje) && 5 < hoje.year < 9999
    requires forall i :: 0 <= i < |rows| ==> KeyDate(rows[i].data)
  {
    VagasNaJanela(hoje, ContagemDe(rows, id, instId, hoje), ComVagas)
  }

  function SemVagasDe(rows: seq<Agendamento>, id: string, instId: string, hoje: Date): seq<Date>
    requires ValidDate(hoje) && 5 < hoje.year < 9999
    requires forall i :: 0 <= i < |rows| ==> KeyDate(rows[i].data)
  {
    VagasNaJanela(hoje, ContagemDe(rows, id, instId, hoje), SemVagas)
  }

  /** What the loop has built after visiting `visitados`: each list holds the visited days
      of its class, in visiting order. */
  ghost predicate Classificados(visitados: seq<Date>, hoje: Date, contagem: map<string, nat>,
                                comVagas: seq<Date>, semVagas: seq<Date>)
  {
    && (forall j :: 0 <= j < |visitados| ==> KeyDate(visitados[j]))
    && comVagas == DiasDaClasse(visitados, ComVagas, hoje, contagem)
    && semVagas == DiasDaClasse(visitados, SemVagas, hoje, contagem)
  }

  /** One turn of the loop: the day joins the class it falls in. */
  method Visitar(data: Date, hoje: Date, contagem: map<string, nat>, ghost visitados: seq<Date>,
                 comVagas: seq<Date>, semVagas: seq<Date>)
    returns (comVagas': seq<Date>, semVagas': seq<Date>)
    requires KeyDate(data) && Classificados(visitados, hoje, contagem, comVagas, semVagas)
    ensures Classificados(visitados + [data], hoje, contagem, comVagas', semVagas')
  {
    DiasDaClasseSnoc(visitados, data, ComVagas, hoje, contagem);
    DiasDaClasseSnoc(visitados, data, SemVagas, hoje, contagem);
    comVagas', semVagas' := ColocarDia(data, hoje, contagem, comVagas, semVagas);
  }

  /** Once the loop has visited the whole window, its lists are the window's. */
  lemma JanelaClassificada(hoje: Date, contagem: map<string, nat>, n: nat, comVagas: seq<Date>, semVagas: seq<Date>)
    requires ValidDate(hoje) && 5 < hoje.year < 9999 && n == DiasTotais(hoje) + 1
    requires Classificados(Periodo(Inicio(hoje), n), hoje, contagem, comVagas, semVagas)
    ensures comVagas == VagasNaJanela(hoje, contagem, ComVagas)
    ensures semVagas == VagasNaJanela(hoje, contagem, SemVagas)
  {
  }

  /** The `for` loop over `i` in 0..diasTotais, from `dataInicial` on. */
  method ClassificarJanela(hoje: Date, contagemPorDia: map<string, nat>) returns (comVagas: seq<Date>, semVagas: seq<Date>)
    requires ValidDate(hoje) && 5 < hoje.year < 9999
    ensures comVagas == VagasNaJanela(hoje, contagemPorDia, ComVagas)
    ensures semVagas == VagasNaJanela(hoje, contagemPorDia, SemVagas)
  {
    var dataInicial := Inicio(hoje);
    var diasTotais := DiasTotais(hoje);
    WindowSize(hoje);
    comVagas, semVagas := [], [];
    ghost var visitados: seq<Date> := [];
    var i := 0;
    while i <= diasTotais
      invariant 0 <= i <= diasTotais + 1
      invariant visitados == Periodo(dataInicial, i)
      invariant Classificados(visitados, hoje, contagemPorDia, comVagas, semVagas)
    {
      var data := AddDays(dataInicial, i);
      WindowKey(hoje, i);
      PeriodoSnoc(dataInicial, i);
      comVagas, semVagas := Visitar(data, hoje, contagemPorDia, visitados, comVagas, semVagas);
      visitados := visitados + [data];
      i := i + 1;
    }
    JanelaClassificada(hoje, contagemPorDia, i, comVagas, semVagas);
  }

  /** The query and the counting loop of the `try`. */
  method ContarJanela(rows: seq<Agendamento>, id: string, instId: string, hoje: Date)
    returns (contagemPorDia: map<string, nat>)
    requires forall i :: 0 <= i < |rows| ==> KeyDate(rows[i].data)
    ensures contagemPorDia == ContagemDe(rows, id, instId, hoje)
  {
    var dataInicial := Inicio(hoje);
    var dataFinal := Fim(hoje);
    var agendamentos := Buscar(rows, id, instId, dataInicial, dataFinal);
    FetchedHaveKeys(rows, id, instId, dataInicial, dataFinal);
    contagemPorDia := ContarPorDia(Chaves(agendamentos));
  }

  /** The body of the `try`: fetch, count, classify. */
  method CalcularVagas(rows: seq<Agendamento>, id: string, instId: string, hoje: Date)
    returns (comVagas: seq<Date>, semVagas: seq<Date>)
    requires ValidDate(hoje) && 5 < hoje.year < 9999
    requires forall i :: 0 <= i < |rows| ==> KeyDate(rows[i].data)
    ensures comVagas == ComVagasDe(rows, id, instId, hoje)
    ensures semVagas == SemVagasDe(rows, id, instId, hoje)
  {
    var contagemPorDia := ContarJanela(rows, id, instId, hoje);
    comVagas, semVagas := ClassificarJanela(hoje, contagemPorDia);
  }

  class Page {
    var diasComVagas: seq<Date>
    var diasSemVagas: seq<Date>
    var isLoading: bool

    constructor ()
      ensures diasComVagas == [] && diasSemVagas == [] && isLoading
    {
      diasComVagas, diasSemVagas, isLoading := [], [], true;
    }

    /** `carregarDisponibilidadeDias`. A failed read leaves both lists as they were. */
    method CarregarDisponibilidadeDias(rows: seq<Agendamento>, id: string, instId: string, hoje: Date,
                                       fetchFails: bool)
      requires ValidDate(hoje) && 5 < hoje.year < 9999
      requires forall i :: 0 <= i < |rows| ==> KeyDate(rows[i].data)
      modifies this
      ensures !isLoading
      ensures fetchFails ==> diasComVagas == old(diasComVagas) && diasSemVagas == old(diasSemVagas)
      ensures !fetchFails ==> diasComVagas == ComVagasDe(rows, id, instId, hoje)
                              && diasSemVagas == SemVagasDe(rows, id, instId, hoje)
    {
      isLoading := true;
      if fetchFails {
        isLoading := false;
        return;
      }
      var comVagas, semVagas := CalcularVagas(rows, id, instId, hoje);
      diasComVagas, diasSemVagas := comVagas, semVagas;
      isLoading := false;
    }

    /** The mount effect: without `medicoId` and `instanciaId` in the session the page sends
        the user to /login; otherwise it loads. */
    method Montar(session: map<string, string>, rows: seq<Agendamento>, hoje: Date, fetchFails: bool)
      returns (redirect: Option<string>)
      requires ValidDate(hoje) && 5 < hoje.year < 9999
      requires forall i :: 0 <= i < |rows| ==> KeyDate(rows[i].data)
      modifies this
      ensures var id, instId := Get(session, "medicoId"), Get(session, "instanciaId");
        if Truthy(id) && Truthy(instId) then
          redirect.None? && !isLoading
          && (!fetchFails ==> diasComVagas == ComVagasDe(rows, id.value, instId.value, hoje)
                              && diasSemVagas == SemVagasDe(rows, id.value, instId.value, hoje))
        else
          redirect == Some("/login") && unchanged(this)
    {
      var id := Get(session, "medicoId");
      var instId := Get(session, "instanciaId");
      if Truthy(id) && Truthy(instId) {
        CarregarDisponibilidadeDias(rows, id.value, instId.value, hoje, fetchFails);
        return None;
      }
      return Some("/login");
    }
  }
}
