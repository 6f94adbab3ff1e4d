/**
 * Operating modes of the E22 module (class EBYTE_E22_MODE), the levels of the
 * two mode-select lines M0 and M1 that choose them, and the trace of events
 * the driver produces on those lines and on the serial link.
 */
module Modes {
  import opened Wrappers

  datatype Mode = Normal | WakeOnRadio | Configuration | DeepSleep

  /** The integer code the driver uses for each mode. */
  function ModeCode(m: Mode): int
  {
    match m
    case Normal => 0
    case WakeOnRadio => 1
    case Configuration => 2
    case DeepSleep => 3
  }

  /** The mode an integer code selects; codes outside 0..3 select none. */
  function ModeOf(code: int): (m: Option<Mode>)
    ensures m.Some? <==> 0 <= code <= 3
    ensures m.Some? ==> ModeCode(m.value) == code
  {
    if code == 0 then Some(Normal)
    else if code == 1 then Some(WakeOnRadio)
    else if code == 2 then Some(Configuration)
    else if code == 3 then Some(DeepSleep)
    else None
  }

  /** A digital line level: 0 low, 1 high. */
  type Level = x: int | 0 <= x <= 1

  datatype Lines = Lines(m0: Level, m1: Level)

  /** The (M0, M1) levels that place the module in each mode. */
  function LinesOf(m: Mode): (l: Lines)
    ensures l == Lines(ModeCode(m) % 2, ModeCode(m) / 2)
  {
    match m
    case Normal => Lines(0, 0)
    case WakeOnRadio => Lines(1, 0)
    case Configuration => Lines(0, 1)
    case DeepSleep => Lines(1, 1)
  }

  /** The mode that a pair of line levels selects: every pair selects one. */
  function ModeOfLines(l: Lines): (m: Mode)
    ensures LinesOf(m) == l
  {
    ModeOf(l.m0 + 2 * l.m1).value
  }

  /** The table from modes to line pairs is a bijection. */
  lemma LinesBijection(m: Mode, n: Mode)
    ensures ModeOfLines(LinesOf(m)) == m
    ensures LinesOf(m) == LinesOf(n) <==> m == n
  {
  }

  /** What the driver does on its two collaborators, in order. */
  datatype Event =
    | SetLines(lines: Lines)    // drive M0 and M1
    | Settle                    // wait for the mode change to take effect (10 ms)
    | Send(frame: seq<bv8>)     // write a frame to the serial link
    | Recv(data: seq<bv8>)      // what the serial link returned

  /** The line levels after the events of `t`, starting from `initial`. */
  function LinesAfter(initial: Lines, t: seq<Event>): Lines
    decreases |t|
  {
    if t == [] then initial
    else
      var before := LinesAfter(initial, t[..|t| - 1]);
      match t[|t| - 1]
      case SetLines(l) => l
      case _ => before
  }

  /** Replaying two stretches of trace one after the other. */
  lemma {:induction false} LinesAfterAppend(initial: Lines, a: seq<Event>, b: seq<Event>)
    ensures LinesAfter(initial, a + b) == LinesAfter(LinesAfter(initial, a), b)
    decreases |b|
  {
    if b == [] {
      assert a + b == a;
    } else {
      var b' := b[..|b| - 1];
      assert (a + b)[..|a + b| - 1] == a + b';
      LinesAfterAppend(initial, a, b');
    }
  }

  /**
   * The gating rule of the protocol: every frame goes out while the lines
   * select Configuration, and right after a settle step.
   */
  ghost predicate Gated(initial: Lines, t: seq<Event>)
  {
    forall i :: 0 <= i < |t| && t[i].Send? ==>
      0 < i && t[i - 1] == Settle && LinesAfter(initial, t[..i]) == LinesOf(Configuration)
  }

  /** Gated stretches of trace compose. */
  lemma GatedAppend(initial: Lines, a: seq<Event>, b: seq<Event>)
    requires Gated(initial, a)
    requires Gated(LinesAfter(initial, a), b)
    ensures Gated(initial, a + b)
  {
    var t := a + b;
    forall i | 0 <= i < |t| && t[i].Send?
      ensures 0 < i && t[i - 1] == Settle && LinesAfter(initial, t[..i]) == LinesOf(Configuration)
    {
      if i < |a| {
        assert t[..i] == a[..i];
      } else {
        var j := i - |a|;
        assert b[j].Send?;
        assert t[..i] == a + b[..j];
        LinesAfterAppend(initial, a, b[..j]);
      }
    }
  }

  /** The events of one mode change: drive the lines when the code names a mode, then settle. */
  function ModeChangeEvents(code: int): (t: seq<Event>)
    ensures |t| == if ModeOf(code).Some? then 2 else 1
    ensures t[|t| - 1] == Settle
    ensures forall i :: 0 <= i < |t| ==> !t[i].Send?
  {
    match ModeOf(code)
    case Some(m) => [SetLines(LinesOf(m)), Settle]
    case None => [Settle]
  }

  /**
   * A frame exchange bracketed by a change into Configuration and a change
   * back to Normal.
   */
  function Bracketed(exchange: seq<Event>): seq<Event>
  {
    ModeChangeEvents(ModeCode(Configuration)) + exchange + ModeChangeEvents(ModeCode(Normal))
  }

  /** The six events of a bracketed frame exchange. */
  lemma BracketedShape(frame: seq<bv8>, reply: seq<bv8>)
    ensures Bracketed([Send(frame), Recv(reply)])
         == [SetLines(LinesOf(Configuration)), Settle, Send(frame), Recv(reply), SetLines(LinesOf(Normal)), Settle]
  {
  }

  /**
   * A bracketed exchange of a frame and its reply keeps the gating rule from
   * any line levels, and leaves the lines selecting Normal.
   */
  lemma BracketedGated(initial: Lines, frame: seq<bv8>, reply: seq<bv8>)
    ensures Gated(initial, Bracketed([Send(frame), Recv(reply)]))
    ensures LinesAfter(initial, Bracketed([Send(frame), Recv(reply)])) == LinesOf(Normal)
  {
    var t := Bracketed([Send(frame), Recv(reply)]);
    BracketedShape(frame, reply);
    assert LinesAfter(initial, t[..2]) == LinesOf(Configuration) by {
      assert t[..2][..1] == [SetLines(LinesOf(Configuration))];
      assert t[..2][..1][..0] == [];
    }
    forall i | 0 <= i < |t| && t[i].Send?
      ensures 0 < i && t[i - 1] == Settle && LinesAfter(initial, t[..i]) == LinesOf(Configuration)
    {
      assert i == 2;
    }
    assert t[..|t| - 1] == t[..5];
  }

  /** A stretch of trace that sends nothing keeps the gating rule. */
  lemma SilentGated(initial: Lines, t: seq<Event>)
    requires forall i :: 0 <= i < |t| ==> !t[i].Send?
    ensures Gated(initial, t)
  {
  }

  /** A stretch of trace that drives no line leaves the levels as they were. */
  lemma {:induction false} LinesAfterQuiet(initial: Lines, t: seq<Event>)
    requires forall i :: 0 <= i < |t| ==> !t[i].SetLines?
    ensures LinesAfter(initial, t) == initial
    decreases |t|
  {
    if t != [] {
      LinesAfterQuiet(initial, t[..|t| - 1]);
    }
  }

  /** A mode change leaves the lines selecting the new mode, or as they were for a bad code. */
  lemma LinesAfterModeChange(initial: Lines, code: int)
    ensures LinesAfter(initial, ModeChangeEvents(code))
         == if ModeOf(code).Some? then LinesOf(ModeOf(code).value) else initial
  {
    var t := ModeChangeEvents(code);
    if ModeOf(code).Some? {
      assert t[..1] == [t[0]];
      assert t[..1][..0] == [];
    } else {
      assert t[..0] == [];
    }
  }
}
