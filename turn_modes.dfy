/** The set-once dealing mode (TurnModeHandler.java): one card or three cards per deal. */
module TurnModes {
  import opened Wrappers

  /** TURN_1(1) and TURN_3(3). */
  datatype TurnMode = Turn1 | Turn3
  {
    /** getMode(): the integer the constant is declared with. */
    function Mode(): int
    {
      if Turn1? then 1 else 3
    }
  }

  /** IllegalArgumentException (a value other than 1 or 3) and IllegalStateException (no mode set yet). */
  datatype TurnModeError = IllegalArgument | IllegalState

  /** The constant whose getMode() equals the given value, if any. */
  function ModeFor(mode: int): (r: Option<TurnMode>)
    ensures r.Some? <==> mode == 1 || mode == 3
    ensures r.Some? ==> r.value.Mode() == mode
  {
    if mode == Turn1.Mode() then Some(Turn1)
    else if mode == Turn3.Mode() then Some(Turn3)
    else None
  }

  /**
   * The effect of one setTurnMode call on the stored mode (None is Java's null):
   * once a mode is stored the call does nothing; otherwise 1 or 3 is stored and
   * any other value throws, leaving the handler unset.
   */
  function SetTurnModeEffect(current: Option<TurnMode>, mode: int): (r: (Option<TurnMode>, Outcome<TurnModeError>))
    ensures current.Some? ==> r == (current, Pass)
    ensures current.None? && (mode == 1 || mode == 3) ==> r.1 == Pass && r.0.Some? && r.0.value.Mode() == mode
    ensures current.None? && mode != 1 && mode != 3 ==> r == (None, Fail(IllegalArgument))
  {
    if current.Some? then (current, Pass)
    else match ModeFor(mode)
      case Some(t) => (Some(t), Pass)
      case None => (None, Fail(IllegalArgument))
  }

  /** The stored mode after a series of setTurnMode calls. */
  function AfterCalls(current: Option<TurnMode>, modes: seq<int>): Option<TurnMode>
    decreases |modes|
  {
    if modes == [] then current else AfterCalls(SetTurnModeEffect(current, modes[0]).0, modes[1..])
  }

  /** Once a mode is set it never changes again, whatever values later calls pass. */
  lemma {:induction false} SetOnce(t: TurnMode, modes: seq<int>)
    ensures AfterCalls(Some(t), modes) == Some(t)
    decreases |modes|
  {
    if modes != [] {
      SetOnce(t, modes[1..]);
    }
  }

  /** The first valid value passed while unset decides the mode for good; invalid values before it are ignored. */
  lemma {:induction false} FirstValidValueWins(invalid: seq<int>, mode: int, later: seq<int>)
    requires forall i :: 0 <= i < |invalid| ==> invalid[i] != 1 && invalid[i] != 3
    requires mode == 1 || mode == 3
    ensures AfterCalls(None, invalid + [mode] + later) == ModeFor(mode)
    decreases |invalid|
  {
    if invalid == [] {
      assert ([] + [mode] + later)[1..] == later;
      SetOnce(ModeFor(mode).value, later);
    } else {
      assert (invalid + [mode] + later)[1..] == invalid[1..] + [mode] + later;
      FirstValidValueWins(invalid[1..], mode, later);
    }
  }

  /** The handler object; turnMode is None until a valid mode is set. */
  class TurnModeHandler {
    var turnMode: Option<TurnMode>

    /** A fresh handler has no mode. */
    constructor ()
      ensures turnMode == None
    {
      turnMode := None;
    }

    /** setTurnMode(mode). */
    method SetTurnMode(mode: int) returns (r: Outcome<TurnModeError>)
      modifies this
      ensures (turnMode, r) == SetTurnModeEffect(old(turnMode), mode)
    {
      if turnMode.Some? {
        return Pass;
      }
      if mode == Turn1.Mode() {
        turnMode := Some(Turn1);
        r := Pass;
      } else if mode == Turn3.Mode() {
        turnMode := Some(Turn3);
        r := Pass;
      } else {
        r := Fail(IllegalArgument);
      }
    }

    /** getTurnMode(): throws IllegalStateException while unset. */
    method GetTurnMode() returns (r: Result<TurnMode, TurnModeError>)
      ensures turnMode.None? ==> r == Failure(IllegalState)
      ensures turnMode.Some? ==> r == Success(turnMode.value)
    {
      if turnMode.None? {
        return Failure(IllegalState);
      }
      r := Success(turnMode.value);
    }

    /** getTurnModeAsInt() of the newer revision: 1 or 3, or IllegalStateException while unset. */
    method GetTurnModeAsInt() returns (r: Result<int, TurnModeError>)
      ensures turnMode.None? ==> r == Failure(IllegalState)
      ensures turnMode.Some? ==> r.Success? && (r.value == 1 || r.value == 3) && ModeFor(r.value) == turnMode
    {
      if turnMode.None? {
        return Failure(IllegalState);
      }
      r := Success(turnMode.value.Mode());
    }

    /**
     * getTurnModeAsInt() of the older revision, which has no unset check and would
     * dereference null; only callable once a mode is set.
     */
    method LegacyGetTurnModeAsInt() returns (r: int)
      requires turnMode.Some?
      ensures (r == 1 || r == 3) && ModeFor(r) == turnMode
    {
      r := turnMode.value.Mode();
    }
  }
}
