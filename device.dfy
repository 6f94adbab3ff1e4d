/**
 * A reference model of how the E22 module itself reacts to a trace of driver
 * events: it honours a set-register frame only while its mode lines select
 * Configuration, and answers a read-register frame with the bytes it holds.
 * It gives the driver's frames a meaning that the lemmas in Driver are stated
 * against.
 */
module Device {
  import opened Registers
  import opened Commands
  import opened Modes

  /** The effect of one frame: a write is honoured only while the lines select Configuration. */
  function Honour(file: RegisterFile, lines: Lines, frame: seq<bv8>): RegisterFile
  {
    if lines != LinesOf(Configuration) then file
    else
      match DecodeFrame(frame)
      case Some(SetRegister(start, data)) => WriteBlock(file, start as int, data)
      case _ => file
  }

  /** The register file after the device has seen the events of `t` with its lines at `lines`. */
  function Apply(file: RegisterFile, lines: Lines, t: seq<Event>): RegisterFile
    decreases |t|
  {
    if t == [] then file
    else
      match t[0]
      case SetLines(l) => Apply(file, l, t[1..])
      case Send(f) => Apply(Honour(file, lines, f), lines, t[1..])
      case _ => Apply(file, lines, t[1..])
  }

  /**
   * The device's answer to a read of `length` registers from `start`: the
   * bytes it holds there, cut off at the last register. It answers in any mode.
   */
  function Respond(file: RegisterFile, start: int, length: int): (r: seq<bv8>)
    ensures |r| == if start < 0 || 10 <= start || length <= 0 then 0
                   else if start + length <= 10 then length else 10 - start
    ensures forall k :: 0 <= k < |r| ==> 0 <= start + k < 10 && r[k] == file[start + k]
  {
    if start < 0 || 10 <= start || length <= 0 then []
    else file[start..if start + length <= 10 then start + length else 10]
  }

  /**
   * A frame sent inside a Configuration bracket takes effect exactly as its
   * decoded write says, whatever the lines were before.
   */
  lemma ApplyBracketed(file: RegisterFile, lines: Lines, frame: seq<bv8>, reply: seq<bv8>)
    ensures Apply(file, lines, Bracketed([Send(frame), Recv(reply)])) == Honour(file, LinesOf(Configuration), frame)
  {
    var cfg, normal := LinesOf(Configuration), LinesOf(Normal);
    var w := Honour(file, cfg, frame);
    var t0 := [SetLines(cfg), Settle, Send(frame), Recv(reply), SetLines(normal), Settle];
    var t1 := [Settle, Send(frame), Recv(reply), SetLines(normal), Settle];
    var t2 := [Send(frame), Recv(reply), SetLines(normal), Settle];
    var t3 := [Recv(reply), SetLines(normal), Settle];
    var t4 := [SetLines(normal), Settle];
    var t5 := [Settle];
    BracketedShape(frame, reply);
    assert t0[1..] == t1 && t1[1..] == t2 && t2[1..] == t3 && t3[1..] == t4 && t4[1..] == t5 && t5[1..] == [];
    calc {
      Apply(file, lines, t0);
      Apply(file, cfg, t1);
      Apply(file, cfg, t2);
      Apply(w, cfg, t3);
      Apply(w, cfg, t4);
      Apply(w, normal, t5);
      Apply(w, normal, []);
    }
  }

  /** The device's view of a trace splits at any point: the second part starts where the first left off. */
  lemma {:induction false} ApplyAppend(file: RegisterFile, lines: Lines, a: seq<Event>, b: seq<Event>)
    ensures Apply(file, lines, a + b) == Apply(Apply(file, lines, a), LinesAfter(lines, a), b)
    decreases |a|
  {
    if a == [] {
      assert a + b == b;
    } else {
      var e, rest := a[0], a[1..];
      assert (a + b)[0] == e && (a + b)[1..] == rest + b;
      assert a == [e] + rest;
      var f' := if e.Send? then Honour(file, lines, e.frame) else file;
      var l' := if e.SetLines? then e.lines else lines;
      assert LinesAfter(lines, [e]) == l' by {
        assert [e][..0] == [];
      }
      LinesAfterAppend(lines, [e], rest);
      ApplyAppend(f', l', rest, b);
    }
  }
}
