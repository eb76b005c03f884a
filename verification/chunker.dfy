/**
 * The reply splitting of `sendMonitored` in utility/utility.go. Instead of
 * calling ChannelMessageSend the method returns the chunks in the order
 * they would be sent, and counts the long pauses the sender takes.
 */
module Chunker {
  import opened Text

  /** Largest message the chat service accepts. */
  const CharLimit: nat := 2000

  /** A long pause is taken after every `Limit` sends made inside the loop. */
  const Limit: nat := 5

  /** The state of the packing loop: the chunks already sent and the chunk
      being built. */
  datatype Packing = Packing(sent: seq<string>, cur: string)

  /** The packing loop of sendMonitored after the lines `lines`: a line is
      appended to the current chunk, after a '\n', while the chunk stays
      within CharLimit; otherwise the current chunk is sent and the line
      starts the next one. */
  function Pack(lines: seq<string>): Packing
  {
    if lines == [] then Packing([], "")
    else
      var p := Pack(lines[..|lines| - 1]);
      var str := lines[|lines| - 1];
      if |p.cur| + |str| >= CharLimit then Packing(p.sent + [p.cur], str)
      else Packing(p.sent, p.cur + "\n" + str)
  }

  /** Nothing is lost or reordered: the chunks sent and the current chunk,
      joined with '\n', are the lines joined with '\n' after a leading
      '\n'. */
  lemma {:induction false} PackJoin(lines: seq<string>)
    requires lines != []
    ensures Join(Pack(lines).sent + [Pack(lines).cur], '\n') == "\n" + Join(lines, '\n')
  {
    var init, str := lines[..|lines| - 1], lines[|lines| - 1];
    if init == [] {
      assert lines == [str];
      PackJoinOne(str);
    } else {
      var p, q := Pack(init), Pack(lines);
      PackJoin(init);
      PackingKeepsJoin(p.sent, p.cur, str, init, q.sent, q.cur);
      assert init + [str] == lines;
    }
  }

  /** PackJoin for a single line. */
  lemma PackJoinOne(str: string)
    ensures Join(Pack([str]).sent + [Pack([str]).cur], '\n') == "\n" + str
  {
    PackOne(str);
    var q := Pack([str]);
    if |str| >= CharLimit {
      assert q.sent + [q.cur] == [""] + [str];
      JoinSnoc([""], str, '\n');
    } else {
      assert q.sent + [q.cur] == ["\n" + str];
    }
  }

  /** The packing of a single line. */
  lemma PackOne(str: string)
    ensures Pack([str]) == if |str| >= CharLimit then Packing([""], str) else Packing([], "\n" + str)
  {
    assert [str][..0] == [];
  }

  /** Every chunk sent fits the limit unless it is a single line of the
      input; so does the current chunk, unless it is the last line. */
  lemma {:induction false} PackBounded(lines: seq<string>)
    ensures forall k :: 0 <= k < |Pack(lines).sent| ==> |Pack(lines).sent[k]| <= CharLimit || Pack(lines).sent[k] in lines
    ensures |Pack(lines).cur| <= CharLimit || (lines != [] && Pack(lines).cur == lines[|lines| - 1])
  {
    if lines != [] {
      var init := lines[..|lines| - 1];
      PackBounded(init);
      assert forall x :: x in init ==> x in lines;
    }
  }

  /** A first line that alone reaches the limit sends an empty chunk first. */
  lemma {:induction false} PackFirstEmpty(lines: seq<string>)
    requires lines != [] && |lines[0]| >= CharLimit
    ensures Pack(lines).sent != [] && Pack(lines).sent[0] == ""
  {
    var init := lines[..|lines| - 1];
    if init != [] {
      assert init[0] == lines[0];
      PackFirstEmpty(init);
    }
  }

  /** The current chunk is empty only when the last line is, and some chunk
      was already sent. */
  lemma PackEmptyCur(lines: seq<string>)
    requires lines != [] && Pack(lines).cur == ""
    ensures Pack(lines).sent != [] && lines[|lines| - 1] == ""
  {
  }

  /** The chunks of `msg` in sending order. A message shorter than CharLimit
      goes out whole. A longer one is split on '\n' and its lines are packed
      as Pack says. The remainder is sent after the loop unless it is
      empty, which drops only an empty last line. */
  method SplitForSending(msg: string) returns (chunks: seq<string>, tailSent: bool, longPauses: nat)
    ensures |msg| < CharLimit ==> chunks == [msg] && longPauses == 0
    ensures |msg| >= CharLimit ==>
      var p := Pack(Split(msg, '\n'));
      tailSent == (p.cur != "") && chunks == p.sent + (if tailSent then [p.cur] else [])
    ensures |msg| >= CharLimit ==> longPauses == (|chunks| - if tailSent then 1 else 0) / Limit
  {
    if |msg| < CharLimit {
      return [msg], true, 0;
    }
    var split := Split(msg, '\n');
    var l, count, cur := 0, 0, "";
    chunks, longPauses := [], 0;
    var i := 0;
    while i < |split|
      invariant 0 <= i <= |split|
      invariant Packing(chunks, cur) == Pack(split[..i]) && l == |cur|
      invariant 0 <= count < Limit && longPauses * Limit + count == |chunks|
    {
      var str := split[i];
      if l + |str| >= CharLimit {
        chunks := chunks + [cur];
        count := count + 1;
        if count >= Limit {
          count := 0;
          longPauses := longPauses + 1;
        }
        cur := str;
        l := |str|;
      } else {
        cur := cur + "\n" + str;
        l := l + 1 + |str|;
      }
      assert split[..i + 1][..i] == split[..i];
      i := i + 1;
    }
    assert split[..i] == split;
    tailSent := cur != "";
    if tailSent {
      chunks := chunks + [cur];
    }
  }

  /** What the chunks of a long message are: never empty; joined with '\n'
      they give back the message after a leading '\n' (when the empty last
      line is dropped, the message lacks only its final '\n'); each fits
      the limit unless it is one line of the message; and the first is
      empty when the first line alone reaches the limit. */
  lemma SplitForSendingChunks(msg: string, chunks: seq<string>, tailSent: bool)
    requires |msg| >= CharLimit
    requires tailSent == (Pack(Split(msg, '\n')).cur != "")
    requires chunks == Pack(Split(msg, '\n')).sent + (if tailSent then [Pack(Split(msg, '\n')).cur] else [])
    ensures chunks != []
    ensures tailSent ==> Join(chunks, '\n') == "\n" + msg
    ensures !tailSent ==> Join(chunks, '\n') + "\n" == "\n" + msg
    ensures forall k :: 0 <= k < |chunks| ==> |chunks[k]| <= CharLimit || chunks[k] in Split(msg, '\n')
    ensures |Split(msg, '\n')[0]| >= CharLimit ==> chunks[0] == ""
  {
    var split := Split(msg, '\n');
    var p := Pack(split);
    PackJoin(split);
    PackBounded(split);
    if !tailSent {
      PackEmptyCur(split);
      JoinSnoc(p.sent, p.cur, '\n');
    }
    if |split[0]| >= CharLimit {
      PackFirstEmpty(split);
    }
  }

  /** One step of the packing loop keeps "chunks so far, then the current
      chunk" equal to "\n" followed by the lines so far: the next line is
      either appended to the current chunk or starts a new one. */
  lemma PackingKeepsJoin(chunks0: seq<string>, cur0: string, str: string, done: seq<string>, chunks: seq<string>, cur: string)
    requires done != []
    requires Join(chunks0 + [cur0], '\n') == "\n" + Join(done, '\n')
    requires (chunks == chunks0 && cur == cur0 + "\n" + str) || (chunks == chunks0 + [cur0] && cur == str)
    ensures Join(chunks + [cur], '\n') == "\n" + Join(done + [str], '\n')
  {
    JoinSnoc(done, str, '\n');
    if chunks == chunks0 && cur == cur0 + "\n" + str {
      JoinAppendToLast(chunks0, cur0, str);
    } else {
      assert chunks + [cur] == chunks0 + [cur0] + [str];
      JoinSnoc(chunks0 + [cur0], str, '\n');
    }
  }

  /** Extending the last part of a join is extending the join. */
  lemma JoinAppendToLast(parts: seq<string>, last: string, more: string)
    ensures Join(parts + [last + "\n" + more], '\n') == Join(parts + [last], '\n') + "\n" + more
  {
    if parts == [] {
      assert [last + "\n" + more] == parts + [last + "\n" + more];
    } else {
      JoinSnoc(parts, last + "\n" + more, '\n');
      JoinSnoc(parts, last, '\n');
    }
  }
}
