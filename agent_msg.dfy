/**
  agent/msg.go: the writer that turns a chunk of a child's (or the agent's
  own) output into line messages tagged with the writer's pipe name.
  A Go string is modelled as a `string` whose chars stand for its bytes.
 */
module AgentMsg {

  import opened Supervision

  /** One log message: the pipe it came from ("agent", "out" or "err") and its text. */
  datatype Msg = Msg(pipe: string, buff: string)

  const NL: char := '\n'

  /** `s` holds no newline. */
  predicate NoNL(s: string)
  {
    forall j :: 0 <= j < |s| ==> s[j] != NL
  }

  /** The index of the first newline in `s`, or |s| when there is none. */
  function FindNL(s: string): (k: nat)
    ensures k <= |s|
    ensures forall j :: 0 <= j < k ==> s[j] != NL
    ensures k < |s| ==> s[k] == NL
  {
    if s == [] then 0
    else if s[0] == NL then 0
    else 1 + FindNL(s[1..])
  }

  /** The pieces joined back with "\n" between them (bytes.Join). */
  function Join(pieces: seq<string>): string
  {
    if |pieces| == 0 then ""
    else if |pieces| == 1 then pieces[0]
    else pieces[0] + [NL] + Join(pieces[1..])
  }

  /** The number of newlines in `s`. */
  function Count(s: string): nat
  {
    if s == [] then 0 else (if s[0] == NL then 1 else 0) + Count(s[1..])
  }

  /**
    bytes.Split(s, "\n"): the newline-free pieces between the newlines, one
    more than there are newlines; joining them gives `s` back.
   */
  function Split(s: string): (pieces: seq<string>)
    ensures |pieces| == Count(s) + 1
    ensures forall i :: 0 <= i < |pieces| ==> NoNL(pieces[i])
    ensures Join(pieces) == s
    decreases |s|
  {
    var k := FindNL(s);
    if k == |s| then
      CountNone(s);
      [s]
    else
      var rest := Split(s[k + 1..]);
      assert s == s[..k] + [NL] + s[k + 1..];
      CountSplit(s[..k], s[k + 1..]);
      CountNone(s[..k]);
      [s[..k]] + rest
  }

  lemma {:induction false} CountNone(s: string)
    requires NoNL(s)
    ensures Count(s) == 0
  {
    if s != [] {
      CountNone(s[1..]);
    }
  }

  lemma {:induction false} CountAppend(a: string, b: string)
    ensures Count(a + b) == Count(a) + Count(b)
  {
    if a == [] {
      assert a + b == b;
    } else {
      assert (a + b)[1..] == a[1..] + b;
      CountAppend(a[1..], b);
    }
  }

  lemma CountSplit(a: string, b: string)
    ensures Count(a + [NL] + b) == Count(a) + 1 + Count(b)
  {
    CountAppend(a + [NL], b);
    CountAppend(a, [NL]);
    assert Count([NL]) == 1 by { assert [NL][1..] == []; }
  }

  /**
    The lines of `s`: each run up to and including a newline, then the rest
    if it is not empty. This is what one call of Write enqueues, in order.
   */
  function Lines(s: string): seq<string>
    decreases |s|
  {
    if s == [] then []
    else if FindNL(s) == |s| then [s]
    else [s[..FindNL(s) + 1]] + Lines(s[FindNL(s) + 1..])
  }

  /** The concatenation of a sequence of strings. */
  function Concat(lines: seq<string>): string
  {
    if lines == [] then "" else lines[0] + Concat(lines[1..])
  }

  /** Each line tagged with the writer's pipe. */
  function Tagged(pipe: string, lines: seq<string>): (msgs: seq<Msg>)
    ensures |msgs| == |lines|
    ensures forall i :: 0 <= i < |lines| ==> msgs[i] == Msg(pipe, lines[i])
  {
    if lines == [] then [] else [Msg(pipe, lines[0])] + Tagged(pipe, lines[1..])
  }

  /** The texts of a sequence of messages. */
  function Buffs(msgs: seq<Msg>): (texts: seq<string>)
    ensures |texts| == |msgs|
    ensures forall i :: 0 <= i < |msgs| ==> texts[i] == msgs[i].buff
  {
    if msgs == [] then [] else [msgs[0].buff] + Buffs(msgs[1..])
  }

  /** A newline-free piece followed by a newline is one whole line. */
  lemma LinesAfterPiece(p: string, t: string)
    requires NoNL(p)
    ensures Lines(p + [NL] + t) == [p + [NL]] + Lines(t)
  {
    var s := p + [NL] + t;
    var k := FindNL(s);
    assert s[|p|] == NL;
    assert k == |p|;
    assert s[..k + 1] == p + [NL];
    assert s[k + 1..] == t;
  }

  /** A newline-free string is at most one line. */
  lemma LinesOfPiece(p: string)
    requires NoNL(p)
    ensures Lines(p) == if p == [] then [] else [p]
  {
    if p != [] {
      var k := FindNL(p);
      assert k == |p|;
    }
  }

  /** Concatenating the lines gives the input back. */
  lemma {:induction false} LinesConcat(s: string)
    ensures Concat(Lines(s)) == s
    decreases |s|
  {
    var k := FindNL(s);
    if s != [] && k < |s| {
      var head, tail := s[..k + 1], s[k + 1..];
      assert Lines(s) == [head] + Lines(tail);
      ConcatCons(head, Lines(tail));
      LinesConcat(tail);
      assert s == head + tail;
    } else if s != [] {
      ConcatCons(s, []);
    }
  }

  lemma ConcatCons(head: string, lines: seq<string>)
    ensures Concat([head] + lines) == head + Concat(lines)
  {
    assert ([head] + lines)[1..] == lines;
  }

  /**
    No line is empty; a newline occurs in a line only as its last char; every
    line but the last ends in a newline.
   */
  lemma {:induction false} LinesShape(s: string)
    ensures forall i :: 0 <= i < |Lines(s)| ==> Lines(s)[i] != []
    ensures forall i :: 0 <= i < |Lines(s)| ==> NoNL(Lines(s)[i][..|Lines(s)[i]| - 1])
    ensures forall i :: 0 <= i < |Lines(s)| - 1 ==> Lines(s)[i][|Lines(s)[i]| - 1] == NL
    decreases |s|
  {
    var k := FindNL(s);
    if s != [] && k < |s| {
      var rest := Lines(s[k + 1..]);
      LinesShape(s[k + 1..]);
      assert Lines(s) == [s[..k + 1]] + rest;
      assert s[..k + 1][..k] == s[..k];
    } else if s != [] {
      assert Lines(s) == [s];
    }
  }

  /**
    There is one line per newline, plus one when the input does not end in a
    newline; the empty input has no lines.
   */
  lemma {:induction false} LinesCount(s: string)
    ensures |Lines(s)| == Count(s) + (if s != [] && s[|s| - 1] != NL then 1 else 0)
    decreases |s|
  {
    var k := FindNL(s);
    if s != [] && k < |s| {
      var t := s[k + 1..];
      LinesCount(t);
      assert s == s[..k] + [NL] + t;
      CountSplit(s[..k], t);
      CountNone(s[..k]);
      if t == [] {
        assert s[|s| - 1] == NL;
      } else {
        assert s[|s| - 1] == t[|t| - 1];
      }
    } else if s != [] {
      CountNone(s);
    }
  }

  lemma {:induction false} ConcatBuffsTagged(pipe: string, lines: seq<string>)
    ensures Concat(Buffs(Tagged(pipe, lines))) == Concat(lines)
    decreases |lines|
  {
    if lines != [] {
      ConcatBuffsTagged(pipe, lines[1..]);
      assert Buffs(Tagged(pipe, lines))[1..] == Buffs(Tagged(pipe, lines[1..]));
    }
  }

  /**
    What one Write enqueues: the texts put together are exactly the stripped
    input, and every message carries the writer's pipe.
   */
  lemma WrittenMessages(pipe: string, s: string)
    ensures Concat(Buffs(Tagged(pipe, Lines(s)))) == s
    ensures forall i :: 0 <= i < |Tagged(pipe, Lines(s))| ==> Tagged(pipe, Lines(s))[i].pipe == pipe
  {
    ConcatBuffsTagged(pipe, Lines(s));
    LinesConcat(s);
  }

  /** The text the loop of Write builds for piece `i`: its newline is restored unless it is the last piece. */
  function PieceLine(pieces: seq<string>, i: nat): string
    requires i < |pieces|
  {
    if i < |pieces| - 1 then pieces[i] + [NL] else pieces[i]
  }

  /** The line piece `i` contributes: none when its text is empty. */
  function LineOf(pieces: seq<string>, i: nat): seq<string>
    requires i < |pieces|
  {
    if PieceLine(pieces, i) == [] then [] else [PieceLine(pieces, i)]
  }

  /** The lines the loop of Write has produced after its first `i` iterations. */
  function Emitted(pieces: seq<string>, i: nat): seq<string>
    requires i <= |pieces|
  {
    if i == 0 then [] else Emitted(pieces, i - 1) + LineOf(pieces, i - 1)
  }

  /** The messages the loop of Write has sent after its first `i` iterations. */
  function Sends(pipe: string, pieces: seq<string>, i: nat): seq<Msg>
    requires i <= |pieces|
  {
    if i == 0 then []
    else if PieceLine(pieces, i - 1) == [] then Sends(pipe, pieces, i - 1)
    else Sends(pipe, pieces, i - 1) + [Msg(pipe, PieceLine(pieces, i - 1))]
  }

  /** One more iteration sends the line of piece `i`, tagged, if it has one. */
  lemma SendsNext(pipe: string, pieces: seq<string>, i: nat)
    requires i < |pieces|
    ensures Sends(pipe, pieces, i + 1) == Sends(pipe, pieces, i) + Tagged(pipe, LineOf(pieces, i))
  {
    if PieceLine(pieces, i) != [] {
      assert Tagged(pipe, LineOf(pieces, i)) == [Msg(pipe, PieceLine(pieces, i))];
    }
  }

  /** The messages sent are the produced lines, tagged. */
  lemma {:induction false} SendsTagged(pipe: string, pieces: seq<string>, i: nat)
    requires i <= |pieces|
    ensures Sends(pipe, pieces, i) == Tagged(pipe, Emitted(pieces, i))
  {
    if i > 0 {
      SendsTagged(pipe, pieces, i - 1);
      SendsNext(pipe, pieces, i - 1);
      assert Emitted(pieces, i) == Emitted(pieces, i - 1) + LineOf(pieces, i - 1);
      TaggedAppend(pipe, Emitted(pieces, i - 1), LineOf(pieces, i - 1));
    }
  }

  /** The lines of the pieces from `i` on: what piece `i` emits, then the lines of the rest. */
  lemma PieceLines(pieces: seq<string>, i: nat)
    requires i < |pieces|
    requires NoNL(pieces[i])
    ensures Lines(Join(pieces[i..])) == LineOf(pieces, i) + Lines(Join(pieces[i + 1..]))
  {
    var d := pieces[i];
    if i < |pieces| - 1 {
      assert pieces[i..][1..] == pieces[i + 1..];
      assert Join(pieces[i..]) == d + [NL] + Join(pieces[i + 1..]);
      LinesAfterPiece(d, Join(pieces[i + 1..]));
    } else {
      assert pieces[i..] == [d];
      assert pieces[i + 1..] == [];
      LinesOfPiece(d);
    }
  }

  /** What is still to be emitted after `i` iterations is the lines of the pieces that are left. */
  lemma {:induction false} EmittedRest(pieces: seq<string>, i: nat)
    requires i <= |pieces|
    requires forall j :: 0 <= j < |pieces| ==> NoNL(pieces[j])
    ensures Emitted(pieces, |pieces|) == Emitted(pieces, i) + Lines(Join(pieces[i..]))
    decreases |pieces| - i
  {
    if i == |pieces| {
      assert pieces[i..] == [];
    } else {
      EmittedRest(pieces, i + 1);
      PieceLines(pieces, i);
      Regroup(Emitted(pieces, |pieces|), Emitted(pieces, i + 1), Emitted(pieces, i),
              LineOf(pieces, i), Lines(Join(pieces[i + 1..])), Lines(Join(pieces[i..])));
    }
  }

  /** (a + b) + c == a + (b + c), stated over names so that the solver need not look inside them. */
  lemma Regroup<T>(total: seq<T>, done: seq<T>, before: seq<T>, step: seq<T>, rest: seq<T>, left: seq<T>)
    requires total == done + rest && done == before + step && left == step + rest
    ensures total == before + left
  {
  }

  /**
    After the last piece the loop of Write has sent exactly the tagged lines
    of the text the pieces came from.
   */
  lemma SendsAll(pipe: string, pieces: seq<string>)
    requires forall j :: 0 <= j < |pieces| ==> NoNL(pieces[j])
    ensures Sends(pipe, pieces, |pieces|) == Tagged(pipe, Lines(Join(pieces)))
  {
    SendsTagged(pipe, pieces, |pieces|);
    EmittedRest(pieces, 0);
    assert pieces[0..] == pieces;
  }

  lemma TaggedAppend(pipe: string, a: seq<string>, b: seq<string>)
    ensures Tagged(pipe, a + b) == Tagged(pipe, a) + Tagged(pipe, b)
  {
  }

  /** The log channel: everything sent on it, in order. Several writers share one. */
  class MsgChan {
    var sent: seq<Msg>

    constructor ()
      ensures sent == []
    {
      sent := [];
    }
  }

  /** A writer that tags what it is given with its pipe and sends it on the shared channel. */
  class MsgQueuer {
    const pipe: string
    const queue: MsgChan

    constructor (pipe: string, queue: MsgChan)
      ensures this.pipe == pipe && this.queue == queue
    {
      this.pipe := pipe;
      this.queue := queue;
    }

    /**
      msgQueuer.Write: strip the terminal escapes (stripAnsi, not part of this
      model, is a parameter), split the rest into lines and send one message
      per line; report the stripped length and no error.
     */
    method Write(data: string, stripAnsi: string -> string) returns (n: int, err: Option<string>)
      modifies queue
      ensures n == |stripAnsi(data)| && err == None
      ensures queue.sent == old(queue.sent) + Tagged(pipe, Lines(stripAnsi(data)))
    {
      var stripped := stripAnsi(data);
      n := |stripped|;
      err := None;
      if n > 0 {
        var lines := Split(stripped);
        var lastIndex := |lines| - 1;
        var i := 0;
        while i < |lines|
          invariant 0 <= i <= |lines|
          invariant queue.sent == old(queue.sent) + Sends(pipe, lines, i)
        {
          var line := lines[i];
          if i != lastIndex {
            line := line + [NL];
          }
          assert line == PieceLine(lines, i);
          SendsNext(pipe, lines, i);
          if line != [] {
            assert Tagged(pipe, LineOf(lines, i)) == [Msg(pipe, line)];
            Regroup(queue.sent + [Msg(pipe, line)], queue.sent, old(queue.sent),
                    Sends(pipe, lines, i), [Msg(pipe, line)], Sends(pipe, lines, i + 1));
            queue.sent := queue.sent + [Msg(pipe, line)];
          } else {
            assert LineOf(lines, i) == [];
          }
          i := i + 1;
        }
        SendsAll(pipe, lines);
      }
    }
  }
}
