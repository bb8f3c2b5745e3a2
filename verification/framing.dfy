/** Read-until-prompt framing of the board's reply and extraction of the
    reply body (the worker loop and the success branch of `execCommand`). */
module Framing {
  import opened Text

  /** The fixed prompt the board prints when a command has finished. */
  const Prompt := "RasPi-ExtBoard> "

  /** One `port.Read` call: an error (the port's short read timeout firing,
      among others) or the `rbuf[0:n]` it delivered. */
  datatype ReadResult = ReadFailed | Chunk(data: string)

  /** Where framing stopped: the accumulated text and the index of the read
      that completed it, or no prompt in the whole trace. */
  datatype Framing = Framed(text: string, at: nat) | Unframed

  /** The bytes a read contributes to the buffer. */
  function Contribution(r: ReadResult): string
  {
    match r
    case ReadFailed => ""
    case Chunk(d) => d
  }

  /** Reference definition: everything the successful trace delivered, in order. */
  function Received(trace: seq<ReadResult>): string
  {
    if |trace| == 0 then "" else Contribution(trace[0]) + Received(trace[1..])
  }

  /** Read `k` is a successful read after which the buffer ends with the prompt. */
  predicate CompletesAt(trace: seq<ReadResult>, k: int)
    requires 0 <= k < |trace|
  {
    trace[k].Chunk? && EndsWith(Received(trace[..k + 1]), Prompt)
  }

  /** Appending a read to the trace appends its contribution to the buffer:
      a failed read leaves it unchanged, a chunk lands after what was there. */
  lemma {:induction false} ReceivedSnoc(trace: seq<ReadResult>, r: ReadResult)
    ensures Received(trace + [r]) == Received(trace) + Contribution(r)
    ensures r.ReadFailed? ==> Received(trace + [r]) == Received(trace)
    decreases |trace|
  {
    if |trace| > 0 {
      assert (trace + [r])[1..] == trace[1..] + [r];
      ReceivedSnoc(trace[1..], r);
    }
  }

  /** The buffer is append-only: an earlier buffer is a prefix of a later one. */
  lemma {:induction false} ReceivedAppendOnly(trace: seq<ReadResult>, i: nat, j: nat)
    requires i <= j <= |trace|
    ensures Received(trace[..i]) <= Received(trace[..j])
    decreases j - i
  {
    if i < j {
      ReceivedAppendOnly(trace, i, j - 1);
      assert trace[..j] == trace[..j - 1] + [trace[j - 1]];
      ReceivedSnoc(trace[..j - 1], trace[j - 1]);
    }
  }

  /** Some read at index `lo` or later completes the reply. */
  predicate CompletesFrom(trace: seq<ReadResult>, lo: nat)
  {
    exists k :: lo <= k < |trace| && CompletesAt(trace, k)
  }

  /** No read before index `hi` completes the reply. */
  predicate NoneCompletesBefore(trace: seq<ReadResult>, hi: nat)
  {
    forall j :: 0 <= j < hi && j < |trace| ==> !CompletesAt(trace, j)
  }

  /** Read `k` is the first read that completes the reply. */
  predicate FirstCompletion(trace: seq<ReadResult>, k: int)
  {
    0 <= k < |trace| && CompletesAt(trace, k) && NoneCompletesBefore(trace, k)
  }

  /** The worker loop from read `i` on, with `buf` the bytes accumulated
      so far: a failed read changes nothing, a chunk is appended and the
      loop stops as soon as the buffer ends with the prompt. */
  function FrameFrom(trace: seq<ReadResult>, i: nat, buf: string): (r: Framing)
    requires i <= |trace|
    ensures r.Framed? ==> i <= r.at < |trace| && EndsWith(r.text, Prompt)
    decreases |trace| - i
  {
    if i == |trace| then Unframed
    else
      match trace[i]
      case ReadFailed => FrameFrom(trace, i + 1, buf)
      case Chunk(d) =>
        if EndsWith(buf + d, Prompt) then Framed(buf + d, i)
        else FrameFrom(trace, i + 1, buf + d)
  }

  /** Started with the buffer holding what reads before `i` delivered and
      no earlier read having completed the reply, the loop frames exactly
      when some later read completes it, stops at the first such read, and
      its text is everything received up to and including that read. */
  lemma {:induction false} FrameFromMeaning(trace: seq<ReadResult>, i: nat, buf: string)
    requires i <= |trace|
    requires buf == Received(trace[..i])
    requires NoneCompletesBefore(trace, i)
    ensures FrameFrom(trace, i, buf).Framed? <==> CompletesFrom(trace, i)
    ensures var r := FrameFrom(trace, i, buf);
      r.Framed? ==>
        && CompletesAt(trace, r.at)
        && NoneCompletesBefore(trace, r.at)
        && r.text == Received(trace[..r.at + 1])
    decreases |trace| - i
  {
    if i < |trace| {
      var next := buf + Contribution(trace[i]);
      assert next == Received(trace[..i + 1]) by { ReadStep(trace, i, buf); }
      if CompletesAt(trace, i) {
        assert FrameFrom(trace, i, buf) == Framed(next, i) by {
          ReadStep(trace, i, buf);
          LoopStep(trace, i, buf);
        }
        assert CompletesFrom(trace, i);
      } else {
        assert FrameFrom(trace, i, buf) == FrameFrom(trace, i + 1, next) by {
          ReadStep(trace, i, buf);
          LoopStep(trace, i, buf);
        }
        assert NoneCompletesBefore(trace, i + 1) by { CompletionStep(trace, i); }
        FrameFromMeaning(trace, i + 1, next);
        SkipRead(trace, i, FrameFrom(trace, i + 1, next));
      }
    }
  }

  /** A read that does not complete the reply changes nothing about
      whether, and how, the rest of the trace completes it. */
  lemma SkipRead(trace: seq<ReadResult>, i: nat, r: Framing)
    requires i < |trace| && !CompletesAt(trace, i)
    requires r.Framed? <==> CompletesFrom(trace, i + 1)
    ensures r.Framed? <==> CompletesFrom(trace, i)
  {
    CompletionStep(trace, i);
  }

  /** One turn of `FrameFrom`: it stops at read `i` when that read is a
      chunk leaving the prompt at the end, and otherwise goes on to read
      `i + 1` with that read's bytes appended. */
  lemma LoopStep(trace: seq<ReadResult>, i: nat, buf: string)
    requires i < |trace|
    ensures var next := buf + Contribution(trace[i]);
      FrameFrom(trace, i, buf) ==
        if trace[i].Chunk? && EndsWith(next, Prompt) then Framed(next, i)
        else FrameFrom(trace, i + 1, next)
  {
    if trace[i].ReadFailed? {
      assert buf + Contribution(trace[i]) == buf;
    }
  }

  /** Moving past read `i`: a completion from `i` on is either read `i` or
      a later one, and "none before" extends by one read. */
  lemma CompletionStep(trace: seq<ReadResult>, i: nat)
    requires i < |trace|
    ensures CompletesFrom(trace, i) <==> CompletesAt(trace, i) || CompletesFrom(trace, i + 1)
    ensures NoneCompletesBefore(trace, i + 1) <==> NoneCompletesBefore(trace, i) && !CompletesAt(trace, i)
  {
  }

  /** One turn of the worker loop: the buffer after read `i` is the old
      buffer plus that read's contribution, and read `i` completes the reply
      exactly when it is a chunk that leaves the prompt at the end. */
  lemma ReadStep(trace: seq<ReadResult>, i: nat, buf: string)
    requires i < |trace|
    requires buf == Received(trace[..i])
    ensures Received(trace[..i + 1]) == buf + Contribution(trace[i])
    ensures CompletesAt(trace, i) <==> trace[i].Chunk? && EndsWith(buf + trace[i].data, Prompt)
  {
    assert trace[..i + 1] == trace[..i] + [trace[i]];
    ReceivedSnoc(trace[..i], trace[i]);
  }

  /** The loop started on an empty buffer. It stops at the first successful
      read after which the accumulated text ends with the prompt, and
      delivers that text. */
  function Frame(trace: seq<ReadResult>): (r: Framing)
    ensures r.Framed? <==> CompletesFrom(trace, 0)
    ensures r.Framed? ==>
      && FirstCompletion(trace, r.at)
      && r.text == Received(trace[..r.at + 1])
      && EndsWith(r.text, Prompt)
  {
    assert trace[..0] == [];
    FrameFromMeaning(trace, 0, "");
    FrameFrom(trace, 0, "")
  }

  /** The lines of the framed text without the first (the echoed command)
      and the last (the prompt), joined again. Go slices
      `lines[1:len(lines)-1]`, which panics when there is only one line. */
  function ExtractBody(text: string): string
    requires '\n' in text
  {
    SplitShape(text);
    var lines := Split(text);
    Join(lines[1..|lines| - 1])
  }

  /** The body is what lies between the first and the last line. */
  lemma BodyBetween(a: string, m: string, p: string)
    requires '\n' !in a && '\n' !in p
    ensures '\n' in a + "\n" + m + "\n" + p
    ensures ExtractBody(a + "\n" + m + "\n" + p) == m
  {
    var text := a + "\n" + m + "\n" + p;
    assert text[|a|] == '\n';
    assert text == a + "\n" + (m + "\n" + p);
    SplitConcat(a, m + "\n" + p);
    SplitConcat(m, p);
    SplitSingleLine(a);
    SplitSingleLine(p);
    var lines := Split(text);
    assert lines == [a] + Split(m) + [p];
    assert lines[1..|lines| - 1] == Split(m);
    JoinSplit(m);
  }

  /** A two-line reply has an empty body. */
  lemma BodyOfTwoLines(a: string, p: string)
    requires '\n' !in a && '\n' !in p
    ensures '\n' in a + "\n" + p
    ensures ExtractBody(a + "\n" + p) == ""
  {
    var text := a + "\n" + p;
    assert text[|a|] == '\n';
    SplitConcat(a, p);
    SplitSingleLine(a);
    SplitSingleLine(p);
    assert Split(text) == [a, p];
  }
}
