/** The on/off switch (`ToggleSwitch`): it mirrors its `checked` prop, flips on a click
    unless disabled, and reports each flip to `onChange`. */
module ToggleSwitch {
  import opened Text

  /** The state after a click: flipped, unless the switch is disabled. */
  function Clicado(isChecked: bool, disabled: bool): (r: bool)
    ensures disabled ==> r == isChecked
    ensures !disabled ==> r != isChecked
  {
    if disabled then isChecked else !isChecked
  }

  /** The state after `n` clicks in a row. */
  function Cliques(isChecked: bool, disabled: bool, n: nat): bool
  {
    if n == 0 then isChecked else Clicado(Cliques(isChecked, disabled, n - 1), disabled)
  }

  /** After `n` clicks an enabled switch has flipped iff `n` is odd; a disabled one never
      moves. In particular two clicks restore the state. */
  lemma {:induction false} CliquesParity(isChecked: bool, disabled: bool, n: nat)
    ensures Cliques(isChecked, disabled, n) == if !disabled && n % 2 == 1 then !isChecked else isChecked
  {
    if n > 0 {
      CliquesParity(isChecked, disabled, n - 1);
    }
  }

  class Switch {
    var isChecked: bool
    const disabled: bool
    const temOnChange: bool
    /** Every value passed to `onChange`, oldest first. */
    var reportados: seq<bool>

    /** `checked` and `disabled` default to false. */
    constructor(checked: Option<bool>, disabledProp: Option<bool>, onChange: bool)
      ensures isChecked == (checked.Some? && checked.value)
      ensures disabled == (disabledProp.Some? && disabledProp.value)
      ensures temOnChange == onChange && reportados == []
    {
      isChecked := checked.Some? && checked.value;
      disabled := disabledProp.Some? && disabledProp.value;
      temOnChange := onChange;
      reportados := [];
    }

    /** The effect on `checked`: the internal state takes the prop's value. */
    method SincronizarProp(checked: Option<bool>)
      modifies this
      ensures isChecked == (checked.Some? && checked.value) && reportados == old(reportados)
    {
      isChecked := checked.Some? && checked.value;
    }

    /** `handleChange`: nothing when disabled; otherwise flip and report the new value. */
    method HandleChange()
      modifies this
      ensures isChecked == Clicado(old(isChecked), disabled)
      ensures reportados == if !disabled && temOnChange then old(reportados) + [isChecked] else old(reportados)
    {
      if disabled {
        return;
      }
      var newValue := !isChecked;
      isChecked := newValue;
      if temOnChange {
        reportados := reportados + [newValue];
      }
    }
  }
}
