/** The month calendar (`Calendario`): six weeks of seven cells, Sunday first, holding
    the last days of the previous month, the days of the shown month and the first days
    of the next; only days of the shown month can be available or clicked. */
module Calendario {
  import opened Text
  import opened Civil

  /** One cell of `diasDoMes`. */
  datatype Dia = Dia(data: Date, diaDoMes: int, mesAtual: bool, disponivel: bool)

  /** The month before (`ano`, `mes`), across a year boundary. */
  function MesAnterior(ano: int, mes: int): (r: (int, int))
    requires 1 <= mes <= 12
    ensures 1 <= r.1 <= 12
  {
    if mes <= 1 then (ano - 1, 12) else (ano, mes - 1)
  }

  /** The month after (`ano`, `mes`): what `new Date(ano, mes + 1, i)` rolls over to. */
  function ProximoMes(ano: int, mes: int): (r: (int, int))
    requires 1 <= mes <= 12
    ensures 1 <= r.1 <= 12
  {
    if mes >= 12 then (ano + 1, 1) else (ano, mes + 1)
  }

  /** The weekday of the 1st, which is the number of leading cells. */
  function DiaDaSemanaInicial(ano: int, mes: int): (n: int)
    requires ano >= 1
    ensures 0 <= n < 7
  {
    Weekday(Date(ano, mes, 1))
  }

  /** The cells of the previous month: its last `n` days, in ascending order. */
  function Anteriores(ano: int, mes: int): (r: seq<Dia>)
    requires ano >= 2 && 1 <= mes <= 12
    ensures |r| == DiaDaSemanaInicial(ano, mes)
  {
    var (pa, pm) := MesAnterior(ano, mes);
    var n, ultimo := DiaDaSemanaInicial(ano, mes), DaysInMonth(pa, pm);
    seq(n, (j: int) requires 0 <= j < n =>
      Dia(Date(pa, pm, ultimo - n + 1 + j), ultimo - n + 1 + j, false, false))
  }

  /** The cells of the shown month, each available iff its key is listed. */
  function Atuais(ano: int, mes: int, diasDisponiveis: seq<string>): (r: seq<Dia>)
    requires 1 <= ano < 10000 && 1 <= mes <= 12
    ensures |r| == DaysInMonth(ano, mes)
  {
    var n := DaysInMonth(ano, mes);
    seq(n, (j: int) requires 0 <= j < n =>
      Dia(Date(ano, mes, j + 1), j + 1, true, Key(Date(ano, mes, j + 1)) in diasDisponiveis))
  }

  /** The cells of the next month that fill the grid up to 42. */
  function Seguintes(ano: int, mes: int, restantes: nat): (r: seq<Dia>)
    requires 1 <= mes <= 12
    ensures |r| == restantes
  {
    var (na, nm) := ProximoMes(ano, mes);
    seq(restantes, (j: int) requires 0 <= j < restantes => Dia(Date(na, nm, j + 1), j + 1, false, false))
  }

  /** How many next-month cells complete six weeks. */
  function Restantes(ano: int, mes: int): nat
    requires ano >= 1
  {
    42 - DiaDaSemanaInicial(ano, mes) - DaysInMonth(ano, mes)
  }

  /** The 42 cells of the month. */
  function Grade(ano: int, mes: int, diasDisponiveis: seq<string>): (r: seq<Dia>)
    requires 2 <= ano < 10000 && 1 <= mes <= 12
    ensures |r| == 42
  {
    Anteriores(ano, mes) + Atuais(ano, mes, diasDisponiveis) + Seguintes(ano, mes, Restantes(ano, mes))
  }

  /** `diasDoMes`: the three loops, one after the other on the same list. */
  method DiasDoMes(ano: int, mes: int, diasDisponiveis: seq<string>) returns (diasDoMes: seq<Dia>)
    requires 2 <= ano < 10000 && 1 <= mes <= 12
    ensures diasDoMes == Grade(ano, mes, diasDisponiveis)
  {
    diasDoMes := PreencherAnteriores(ano, mes);
    diasDoMes := PreencherAtuais(ano, mes, diasDisponiveis, diasDoMes);
    diasDoMes := PreencherSeguintes(ano, mes, diasDoMes);
  }

  /** The first loop, prepending (`unshift`) the day `new Date(ano, mes, -i)`: the `i`-th
      day before the last of the previous month. */
  method PreencherAnteriores(ano: int, mes: int) returns (diasDoMes: seq<Dia>)
    requires ano >= 2 && 1 <= mes <= 12
    ensures diasDoMes == Anteriores(ano, mes)
  {
    var anteriores := Anteriores(ano, mes);
    var (pa, pm) := MesAnterior(ano, mes);
    var ultimoAnterior := DaysInMonth(pa, pm);
    diasDoMes := [];
    var diaDaSemanaInicial := DiaDaSemanaInicial(ano, mes);
    var i := 0;
    while i < diaDaSemanaInicial
      invariant 0 <= i <= diaDaSemanaInicial
      invariant diasDoMes == anteriores[diaDaSemanaInicial - i..]
    {
      var dia := Date(pa, pm, ultimoAnterior - i);
      diasDoMes := [Dia(dia, dia.day, false, false)] + diasDoMes;
      i := i + 1;
    }
  }

  /** The second loop, appending the days 1..N of the shown month. */
  method PreencherAtuais(ano: int, mes: int, diasDisponiveis: seq<string>, inicio: seq<Dia>)
    returns (diasDoMes: seq<Dia>)
    requires 1 <= ano < 10000 && 1 <= mes <= 12
    ensures diasDoMes == inicio + Atuais(ano, mes, diasDisponiveis)
  {
    var atuais := Atuais(ano, mes, diasDisponiveis);
    diasDoMes := inicio;
    var ultimoDia := DaysInMonth(ano, mes);
    var i := 1;
    while i <= ultimoDia
      invariant 1 <= i <= ultimoDia + 1
      invariant diasDoMes == inicio + atuais[..i - 1]
    {
      var dia := Date(ano, mes, i);
      var dataFormatada := Key(dia);
      diasDoMes := diasDoMes + [Dia(dia, i, true, dataFormatada in diasDisponiveis)];
      i := i + 1;
    }
    assert atuais[..ultimoDia] == atuais;
  }

  /** The third loop, appending the first days of the next month up to 42 cells. */
  method PreencherSeguintes(ano: int, mes: int, inicio: seq<Dia>) returns (diasDoMes: seq<Dia>)
    requires 1 <= mes <= 12 && |inicio| <= 42
    ensures diasDoMes == inicio + Seguintes(ano, mes, 42 - |inicio|)
  {
    var diasRestantes := 42 - |inicio|;
    var seguintes := Seguintes(ano, mes, diasRestantes);
    var (na, nm) := ProximoMes(ano, mes);
    diasDoMes := inicio;
    var i := 1;
    while i <= diasRestantes
      invariant 1 <= i <= diasRestantes + 1
      invariant diasDoMes == inicio + seguintes[..i - 1]
    {
      diasDoMes := diasDoMes + [Dia(Date(na, nm, i), i, false, false)];
      i := i + 1;
    }
    assert seguintes[..diasRestantes] == seguintes;
  }

  // ---------------------------------------------------------------------------
  // The grid runs day by day
  // ---------------------------------------------------------------------------

  /** The last day of a month is followed by the 1st of the next. */
  lemma EndOfMonth(ano: int, mes: int)
    requires ano >= 1 && 1 <= mes <= 12
    ensures var (na, nm) := ProximoMes(ano, mes);
      na >= 1 && DayNumber(Date(na, nm, 1)) == DayNumber(Date(ano, mes, DaysInMonth(ano, mes))) + 1
  {
    NextDayNumber(Date(ano, mes, DaysInMonth(ano, mes)));
  }

  /** Cell `i` holds the day `i` days after the Sunday that opens the grid. */
  lemma {:induction false} GradeConsecutive(ano: int, mes: int, diasDisponiveis: seq<string>, i: int)
    requires 2 <= ano < 10000 && 1 <= mes <= 12 && 0 <= i < 42
    ensures var g := Grade(ano, mes, diasDisponiveis);
      ValidDate(g[i].data)
      && DayNumber(g[i].data) == DayNumber(Date(ano, mes, 1)) - DiaDaSemanaInicial(ano, mes) + i
  {
    var g := Grade(ano, mes, diasDisponiveis);
    var lead, n := DiaDaSemanaInicial(ano, mes), DaysInMonth(ano, mes);
    var (pa, pm) := MesAnterior(ano, mes);
    if i < lead {
      assert g[i] == Anteriores(ano, mes)[i];
      EndOfMonth(pa, pm);
      assert ProximoMes(pa, pm) == (ano, mes);
    } else if i < lead + n {
      assert g[i] == Atuais(ano, mes, diasDisponiveis)[i - lead];
    } else {
      assert g[i] == Seguintes(ano, mes, Restantes(ano, mes))[i - lead - n];
      EndOfMonth(ano, mes);
    }
  }

  /** Cell `i` falls on weekday `i % 7`: the columns are Sunday through Saturday. */
  lemma GradeColumnIsWeekday(ano: int, mes: int, diasDisponiveis: seq<string>, i: int)
    requires 2 <= ano < 10000 && 1 <= mes <= 12 && 0 <= i < 42
    ensures var g := Grade(ano, mes, diasDisponiveis);
      g[i].data.year >= 1 && Weekday(g[i].data) == i % 7
  {
    GradeConsecutive(ano, mes, diasDisponiveis, i);
    var d := Grade(ano, mes, diasDisponiveis)[i].data;
    var x := DayNumber(Date(ano, mes, 1)) + 1;
    WeekdayShift(x, DiaDaSemanaInicial(ano, mes), i);
  }

  lemma WeekdayShift(x: int, lead: int, i: int)
    requires x % 7 == lead
    ensures (x - lead + i) % 7 == i % 7
  {
    var q := x / 7;
    assert x - lead + i == 7 * q + i;
  }

  /** The cells of the shown month are exactly its days 1..N, in place after the leading
      cells; a cell is available only if it is of the shown month and its key is listed. */
  lemma GradeCells(ano: int, mes: int, diasDisponiveis: seq<string>, i: int)
    requires 2 <= ano < 10000 && 1 <= mes <= 12 && 0 <= i < 42
    ensures var g, lead := Grade(ano, mes, diasDisponiveis), DiaDaSemanaInicial(ano, mes);
      (g[i].mesAtual <==> lead <= i < lead + DaysInMonth(ano, mes))
      && (g[i].mesAtual ==> g[i].data == Date(ano, mes, i - lead + 1) && g[i].diaDoMes == i - lead + 1)
      && (g[i].disponivel <==> g[i].mesAtual && Key(Date(ano, mes, i - lead + 1)) in diasDisponiveis)
      && g[i].diaDoMes == g[i].data.day
  {
    var g, lead, n := Grade(ano, mes, diasDisponiveis), DiaDaSemanaInicial(ano, mes), DaysInMonth(ano, mes);
    if i < lead {
      assert g[i] == Anteriores(ano, mes)[i];
    } else if i < lead + n {
      assert g[i] == Atuais(ano, mes, diasDisponiveis)[i - lead];
    } else {
      assert g[i] == Seguintes(ano, mes, Restantes(ano, mes))[i - lead - n];
    }
  }

  // ---------------------------------------------------------------------------
  // Weeks and clicks
  // ---------------------------------------------------------------------------

  /** `semanas`: consecutive slices of seven (the last one shorter if need be). */
  function Semanas<T>(dias: seq<T>): (r: seq<seq<T>>)
    ensures |r| == (|dias| + 6) / 7
  {
    var n := (|dias| + 6) / 7;
    seq(n, (w: int) requires 0 <= w < n =>
      dias[7 * w .. if 7 * w + 7 <= |dias| then 7 * w + 7 else |dias|])
  }

  /** The week loop, stepping `i` by 7. */
  method AgruparSemanas<T>(dias: seq<T>) returns (semanas: seq<seq<T>>)
    ensures semanas == Semanas(dias)
  {
    semanas := [];
    var i := 0;
    while i < |dias|
      invariant 0 <= i <= |dias| + 6 && i % 7 == 0
      invariant semanas == Semanas(dias)[..i / 7]
    {
      semanas := semanas + [dias[i .. if i + 7 <= |dias| then i + 7 else |dias|]];
      i := i + 7;
    }
    assert i / 7 == (|dias| + 6) / 7;
  }

  /** The grid's weeks are six rows of seven whose cell `c` of week `w` is grid cell `7w + c`. */
  lemma SemanasOfGrade(ano: int, mes: int, diasDisponiveis: seq<string>)
    requires 2 <= ano < 10000 && 1 <= mes <= 12
    ensures var g := Grade(ano, mes, diasDisponiveis);
      var s := Semanas(g);
      |s| == 6 && forall w, c :: 0 <= w < 6 && 0 <= c < 7 ==> |s[w]| == 7 && s[w][c] == g[7 * w + c]
  {
  }

  /** The cell's click handler: only a day of the shown month, and only when the parent
      passed `onSelectDate`, is reported. */
  function AoClicar(dia: Dia, temOnSelectDate: bool): (r: Option<Date>)
    ensures r.Some? <==> dia.mesAtual && temOnSelectDate
    ensures r.Some? ==> r.value == dia.data
  {
    if dia.mesAtual && temOnSelectDate then Some(dia.data) else None
  }

  /** A click on a grid cell reports a day of the shown month, or nothing. */
  lemma ClickReportsShownMonth(ano: int, mes: int, diasDisponiveis: seq<string>, i: int, temOnSelectDate: bool)
    requires 2 <= ano < 10000 && 1 <= mes <= 12 && 0 <= i < 42
    ensures var r := AoClicar(Grade(ano, mes, diasDisponiveis)[i], temOnSelectDate);
      r.Some? ==> r.value.year == ano && r.value.month == mes && ValidDate(r.value)
  {
    GradeCells(ano, mes, diasDisponiveis, i);
  }

  // ---------------------------------------------------------------------------
  // Month navigation
  // ---------------------------------------------------------------------------

  /** The shown month; the day of `currentMonth` plays no part in the grid. */
  class Navegacao {
    var ano: int
    var mes: int

    constructor(anoInicial: int, mesInicial: int)
      requires 1 <= mesInicial <= 12
      ensures ano == anoInicial && mes == mesInicial
    {
      ano, mes := anoInicial, mesInicial;
    }

    /** `nextMonth`: `addMonths(currentMonth, 1)`. */
    method NextMonth()
      requires 1 <= mes <= 12
      modifies this
      ensures (ano, mes) == ProximoMes(old(ano), old(mes))
      ensures 1 <= mes <= 12 && 12 * ano + mes == 12 * old(ano) + old(mes) + 1
    {
      ano, mes := ProximoMes(ano, mes).0, ProximoMes(ano, mes).1;
    }

    /** `prevMonth`: `subMonths(currentMonth, 1)`. */
    method PrevMonth()
      requires 1 <= mes <= 12
      modifies this
      ensures (ano, mes) == MesAnterior(old(ano), old(mes))
      ensures 1 <= mes <= 12 && 12 * ano + mes == 12 * old(ano) + old(mes) - 1
    {
      ano, mes := MesAnterior(ano, mes).0, MesAnterior(ano, mes).1;
    }
  }

  /** Going a month forward and back again shows the same month, and so does back then forward. */
  lemma NavegacaoRoundTrip(ano: int, mes: int)
    requires 1 <= mes <= 12
    ensures var (na, nm) := ProximoMes(ano, mes); MesAnterior(na, nm) == (ano, mes)
    ensures var (pa, pm) := MesAnterior(ano, mes); ProximoMes(pa, pm) == (ano, mes)
  {
  }
}
