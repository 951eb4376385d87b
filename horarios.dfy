/** The time-slot picker of a chosen day (`HorariosDisponiveis`): half-hour buttons from
    08:00 to 17:00, the occupied ones disabled, the clicked free one selected and reported
    to the parent. */
module HorariosDisponiveis {
  import opened Text
  import opened Utils

  /** The slots the picker shows: every half hour from 08:00 up to and including 17:00. */
  function Horarios(): (r: seq<string>)
    ensures |r| == 19
  {
    seq(19, (k: int) requires 0 <= k < 19 => Slot(480 + 30 * k))
  }

  /** `gerarHorarios`: hours 8..17, minutes 0 and 30, skipping 17:30. */
  method GerarHorarios() returns (horarios: seq<string>)
    ensures horarios == Horarios()
  {
    horarios := [];
    var inicio, fim, intervalo := 8, 17, 30;
    var hora := inicio;
    while hora <= fim
      invariant 8 <= hora <= 18
      invariant |horarios| == if hora == 18 then 19 else 2 * (hora - 8)
      invariant forall k :: 0 <= k < |horarios| ==> horarios[k] == Slot(480 + 30 * k)
    {
      var minuto := 0;
      while minuto < 60
        invariant minuto == 0 || minuto == 30 || minuto == 60
        invariant |horarios| == 2 * (hora - 8) + (if hora == 17 && minuto > 0 then 1 else minuto / 30)
        invariant forall k :: 0 <= k < |horarios| ==> horarios[k] == Slot(480 + 30 * k)
      {
        if hora == fim && minuto > 0 {
          minuto := minuto + intervalo;
          continue;
        }
        assert 480 + 30 * |horarios| == hora * 60 + minuto;
        SlotOfHourAndMinute(hora, minuto);
        horarios := horarios + [Pad2(hora) + ":" + Pad2(minuto)];
        minuto := minuto + intervalo;
      }
      hora := hora + 1;
    }
  }

  /** The picker's slots start at 08:00 and end at 17:00. */
  lemma HorariosEnds()
    ensures Horarios()[0] == "08:00" && Horarios()[18] == "17:00"
  {
    SlotOfHourAndMinute(8, 0);
    SlotOfHourAndMinute(17, 0);
  }

  /** The picker's slots strictly increase. */
  lemma HorariosIncreasing()
    ensures forall i, j :: 0 <= i < j < 19 ==> SlotMinutes(Horarios()[i]) < SlotMinutes(Horarios()[j])
  {
    var h := Horarios();
    forall i, j | 0 <= i < j < 19
      ensures SlotMinutes(h[i]) < SlotMinutes(h[j])
    {
      SlotsOrdered(480 + 30 * i, 480 + 30 * j);
    }
  }

  /** The picker's slots are the day's slots of `lib/utils.ts` without its last one, 17:30. */
  lemma HorariosSkipHalfPastFive()
    ensures forall k :: 0 <= k < 19 ==> Horarios()[k] == Slot(480 + 30 * k)
    ensures Slot(480 + 30 * 19) == "17:30" && "17:30" !in Horarios()
  {
    var h := Horarios();
    FirstAndLastSlot();
    forall k | 0 <= k < 19
      ensures h[k] != Slot(1050)
    {
      SlotsOrdered(480 + 30 * k, 1050);
    }
  }

  /** The picker's state: the selected slot and the slots reported to `onSelectHorario`. */
  class Picker {
    /** `horariosOcupados`, as given to this render. */
    const horariosOcupados: seq<string>
    var horarioSelecionado: Option<string>
    /** Every value passed to `onSelectHorario`, oldest first. */
    var selecionados: seq<string>

    /** The selection is the last reported slot, and no occupied slot was ever reported. */
    predicate Valid()
      reads this
    {
      (horarioSelecionado.None? <==> selecionados == [])
      && (selecionados != [] ==> horarioSelecionado == Some(selecionados[|selecionados| - 1]))
      && forall i :: 0 <= i < |selecionados| ==> selecionados[i] !in horariosOcupados
    }

    constructor(ocupados: seq<string>)
      ensures Valid()
      ensures horariosOcupados == ocupados && horarioSelecionado == None && selecionados == []
    {
      horariosOcupados := ocupados;
      horarioSelecionado := None;
      selecionados := [];
    }

    /** `isHorarioOcupado`. */
    predicate IsHorarioOcupado(horario: string)
      reads this
    {
      horario in horariosOcupados
    }

    /** A click on a slot's button: an occupied (disabled) slot does nothing; a free one
        becomes the selection and is reported. */
    method Clicar(horario: string)
      requires Valid()
      modifies this
      ensures Valid()
      ensures IsHorarioOcupado(horario) ==> unchanged(this)
      ensures !IsHorarioOcupado(horario) ==>
        horarioSelecionado == Some(horario) && selecionados == old(selecionados) + [horario]
    {
      if !IsHorarioOcupado(horario) {
        HandleSelectHorario(horario);
      }
    }

    /** `handleSelectHorario`: select the slot, then report it. */
    method HandleSelectHorario(horario: string)
      requires Valid() && !IsHorarioOcupado(horario)
      modifies this
      ensures Valid()
      ensures horarioSelecionado == Some(horario) && selecionados == old(selecionados) + [horario]
    {
      horarioSelecionado := Some(horario);
      selecionados := selecionados + [horario];
    }
  }
}
