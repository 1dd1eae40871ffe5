/**
 * The line-buffered reader of SMTP replies (section 4.2.1 of RFC 5321), and the wrapping of a
 * message body. Text arrives in chunks cut anywhere, also between CR and LF.
 */
module Smtp {
  import opened Text

  datatype Reply = Reply(code: nat, text: string)

  /** The reader between two chunks: text after the last line end, and the lines of an unfinished reply. */
  datatype Residue = Residue(buffer: string, lines: seq<string>)

  datatype Parsed = Parsed(replies: seq<Reply>, rest: Residue)

  predicate LineEndAt(s: string, i: nat) {
    i + 1 < |s| && s[i] == '\r' && s[i + 1] == '\n'
  }

  /** The position of the first CRLF at or after `from`, or -1. */
  function IndexFrom(s: string, from: nat): (i: int)
    requires from <= |s|
    ensures i == -1 || (from <= i && LineEndAt(s, i))
    decreases |s| - from
  {
    if from == |s| then -1 else if LineEndAt(s, from) then from else IndexFrom(s, from + 1)
  }

  function IndexOf(s: string): int {
    IndexFrom(s, 0)
  }

  /** "250 OK" ends a reply, "250-SIZE" does not. */
  predicate EndsReply(line: string) {
    |line| >= 4 && IsDigit(line[0]) && IsDigit(line[1]) && IsDigit(line[2]) && line[3] == ' '
  }

  function Digit(c: char): nat
    requires IsDigit(c)
  {
    (c - '0') as nat
  }

  function CodeOf(line: string): nat
    requires EndsReply(line)
  {
    100 * Digit(line[0]) + 10 * Digit(line[1]) + Digit(line[2])
  }

  /** What reading the first complete line of `r.buffer` yields. */
  function TakeLine(r: Residue): (p: Parsed)
    requires IndexOf(r.buffer) >= 0
    ensures |p.rest.buffer| < |r.buffer|
  {
    var i := IndexOf(r.buffer);
    var line, rest := r.buffer[..i], r.buffer[i + 2..];
    var lines := r.lines + [line];
    if EndsReply(line) then Parsed([Reply(CodeOf(line), Join(lines, "\n"))], Residue(rest, []))
    else Parsed([], Residue(rest, lines))
  }

  /** What reading all complete lines of `r.buffer` yields. */
  function Parse(r: Residue): Parsed
    decreases |r.buffer|
  {
    if IndexOf(r.buffer) < 0 then Parsed([], r)
    else
      var first := TakeLine(r);
      var more := Parse(first.rest);
      Parsed(first.replies + more.replies, more.rest)
  }

  function Feed(r: Residue, chunk: string): Parsed {
    Parse(Longer(r, chunk))
  }

  function FeedAll(r: Residue, chunks: seq<string>): Parsed
    decreases |chunks|
  {
    if chunks == [] then Parsed([], r)
    else
      var first := Feed(r, chunks[0]);
      var more := FeedAll(first.rest, chunks[1..]);
      Parsed(first.replies + more.replies, more.rest)
  }

  function Concat(chunks: seq<string>): string {
    if chunks == [] then "" else chunks[0] + Concat(chunks[1..])
  }

  /** Text that comes later does not move a line end that is already there. */
  lemma {:induction false} IndexOfLonger(s: string, tail: string, from: nat)
    requires from <= |s| && IndexFrom(s, from) >= 0
    ensures IndexFrom(s + tail, from) == IndexFrom(s, from)
    decreases |s| - from
  {
    if from < |s| {
      var i := IndexFrom(s, from);
      assert LineEndAt(s + tail, i);
      assert from + 1 < |s| ==> (LineEndAt(s + tail, from) <==> LineEndAt(s, from));
      if from < i { IndexOfLonger(s, tail, from + 1); }
    }
  }

  function Longer(r: Residue, tail: string): Residue {
    Residue(r.buffer + tail, r.lines)
  }

  lemma TakeLineOfLonger(r: Residue, tail: string)
    requires IndexOf(r.buffer) >= 0
    ensures IndexOf(Longer(r, tail).buffer) >= 0
    ensures TakeLine(Longer(r, tail)) == Parsed(TakeLine(r).replies, Longer(TakeLine(r).rest, tail))
  {
    IndexOfLonger(r.buffer, tail, 0);
    var i := IndexOf(r.buffer);
    assert (r.buffer + tail)[..i] == r.buffer[..i] && (r.buffer + tail)[i + 2..] == r.buffer[i + 2..] + tail;
  }

  /** Reading what is there and then the rest is reading everything at once. */
  lemma {:induction false} ParseInTwo(r: Residue, tail: string)
    ensures
      var first := Parse(r);
      var second := Parse(Longer(first.rest, tail));
      Parse(Longer(r, tail)) == Parsed(first.replies + second.replies, second.rest)
    decreases |r.buffer|
  {
    if IndexOf(r.buffer) < 0 {
      assert forall replies: seq<Reply> :: [] + replies == replies;
    } else {
      TakeLineOfLonger(r, tail);
      var line := TakeLine(r);
      ParseInTwo(line.rest, tail);
      var first := Parse(line.rest);
      var second := Parse(Longer(first.rest, tail));
      assert line.replies + (first.replies + second.replies) == line.replies + first.replies + second.replies;
    }
  }

  lemma {:induction false} ParseLeavesNoLineEnd(r: Residue)
    ensures IndexOf(Parse(r).rest.buffer) < 0
    decreases |r.buffer|
  {
    if IndexOf(r.buffer) >= 0 { ParseLeavesNoLineEnd(TakeLine(r).rest); }
  }

  /**
   * However a stream is cut into chunks, the same replies are completed in the same order, and the
   * same text and lines are left over.
   */
  lemma {:induction false} ChunkingIsInvisible(r: Residue, chunks: seq<string>)
    requires IndexOf(r.buffer) < 0
    ensures FeedAll(r, chunks) == Feed(r, Concat(chunks))
    decreases |chunks|
  {
    if chunks == [] {
      FeedNothing(r);
    } else {
      ParseLeavesNoLineEnd(Longer(r, chunks[0]));
      ChunkingIsInvisible(Feed(r, chunks[0]).rest, chunks[1..]);
      FeedInTwo(r, chunks[0], Concat(chunks[1..]));
    }
  }

  lemma FeedNothing(r: Residue)
    requires IndexOf(r.buffer) < 0
    ensures Feed(r, "") == Parsed([], r)
  {
    assert Longer(r, "") == r by { assert r.buffer + "" == r.buffer; }
  }

  lemma FeedInTwo(r: Residue, head: string, tail: string)
    ensures
      var first := Feed(r, head);
      var second := Feed(first.rest, tail);
      Feed(r, head + tail) == Parsed(first.replies + second.replies, second.rest)
  {
    ParseInTwo(Longer(r, head), tail);
    assert Longer(Longer(r, head), tail) == Longer(r, head + tail) by { assert r.buffer + head + tail == r.buffer + (head + tail); }
  }

  // ------------------------------------------------------- what a server sends ----

  /** Three digits and a space begin the last line of a reply. */
  predicate IsLast(line: string) {
    |line| >= 4 && (forall k :: 0 <= k < 3 ==> '0' <= line[k] <= '9') && line[3] == ' '
  }

  predicate IsLine(line: string) {
    forall i :: 0 <= i < |line| - 1 ==> !(line[i] == '\r' && line[i + 1] == '\n')
  }

  /** Lines without a line end in them, of which only the last reads like one. */
  predicate IsReply(lines: seq<string>) {
    lines != [] && forall k :: 0 <= k < |lines| ==> IsLine(lines[k]) && (IsLast(lines[k]) <==> k == |lines| - 1)
  }

  function Sent(lines: seq<string>): string {
    if lines == [] then "" else lines[0] + "\r\n" + Sent(lines[1..])
  }

  function SentAll(replies: seq<seq<string>>): string {
    if replies == [] then "" else Sent(replies[0]) + SentAll(replies[1..])
  }

  lemma {:induction false} EndIsFound(line: string, tail: string, from: nat)
    requires from <= |line| && IsLine(line)
    ensures IndexFrom(line + "\r\n" + tail, from) == |line|
    decreases |line| - from
  {
    var s := line + "\r\n" + tail;
    assert s[|line|] == '\r' && s[|line| + 1] == '\n' && forall i :: 0 <= i < |line| ==> s[i] == line[i];
    if from < |line| { EndIsFound(line, tail, from + 1); }
  }

  lemma LineIsTaken(line: string, tail: string, earlier: seq<string>)
    requires IsLine(line)
    ensures
      var r := Residue(line + "\r\n" + tail, earlier);
      && IndexOf(r.buffer) == |line|
      && TakeLine(r) == if EndsReply(line) then Parsed([Reply(CodeOf(line), Join(earlier + [line], "\n"))], Residue(tail, []))
                        else Parsed([], Residue(tail, earlier + [line]))
  {
    EndIsFound(line, tail, 0);
    var s := line + "\r\n" + tail;
    assert s[..|line|] == line && s[|line| + 2..] == tail;
  }

  lemma LineIsParsed(line: string, tail: string, earlier: seq<string>)
    requires IsLine(line)
    ensures
      Parse(Residue(line + "\r\n" + tail, earlier)) ==
        if EndsReply(line) then
          var more := Parse(Residue(tail, []));
          Parsed([Reply(CodeOf(line), Join(earlier + [line], "\n"))] + more.replies, more.rest)
        else Parse(Residue(tail, earlier + [line]))
  {
    LineIsTaken(line, tail, earlier);
    var more := Parse(Residue(tail, earlier + [line]));
    assert [] + more.replies == more.replies;
  }

  lemma RestIsReply(lines: seq<string>)
    requires IsReply(lines)
    ensures IsLine(lines[0]) && (IsLast(lines[0]) <==> |lines| == 1)
    ensures |lines| > 1 ==> IsReply(lines[1..]) && lines[1..][|lines| - 2] == lines[|lines| - 1]
  {
    assert forall k :: 0 <= k < |lines| - 1 ==> lines[1..][k] == lines[k + 1];
  }

  /** Reading `text` completes `reply` first, and goes on with `tail`. */
  ghost predicate Reads(text: string, earlier: seq<string>, reply: Reply, tail: string) {
    Parse(Residue(text, earlier)) == Parsed([reply] + Parse(Residue(tail, [])).replies, Parse(Residue(tail, [])).rest)
  }

  lemma ReadsOn(line: string, text: string, earlier: seq<string>, reply: Reply, tail: string)
    requires IsLine(line) && !EndsReply(line) && Reads(text, earlier + [line], reply, tail)
    ensures Reads(line + "\r\n" + text, earlier, reply, tail)
  {
    LineIsParsed(line, text, earlier);
  }

  lemma ReadsLast(line: string, tail: string, earlier: seq<string>, reply: Reply)
    requires IsLine(line) && EndsReply(line) && reply == Reply(CodeOf(line), Join(earlier + [line], "\n"))
    ensures Reads(line + "\r\n" + tail, earlier, reply, tail)
  {
    LineIsParsed(line, tail, earlier);
  }

  lemma Regroups(lines: seq<string>, earlier: seq<string>)
    requires lines != []
    ensures earlier + [lines[0]] + lines[1..] == earlier + lines
    ensures |lines| == 1 ==> earlier + [lines[0]] == earlier + lines
  {
  }

  lemma {:induction false} ReplyIsParsed(lines: seq<string>, tail: string, earlier: seq<string>, reply: Reply)
    requires IsReply(lines) && EndsReply(lines[|lines| - 1])
    requires reply == Reply(CodeOf(lines[|lines| - 1]), Join(earlier + lines, "\n"))
    ensures Reads(Sent(lines) + tail, earlier, reply, tail)
    decreases |lines|
  {
    RestIsReply(lines);
    SentInTwo(lines, tail);
    LastEnds(lines[0]);
    Regroups(lines, earlier);
    if |lines| == 1 {
      ReadsLast(lines[0], tail, earlier, reply);
    } else {
      ReplyIsParsed(lines[1..], tail, earlier + [lines[0]], reply);
      ReadsOn(lines[0], Sent(lines[1..]) + tail, earlier, reply, tail);
    }
  }

  lemma SentInTwo(lines: seq<string>, tail: string)
    requires lines != []
    ensures Sent(lines) + tail == lines[0] + "\r\n" + (Sent(lines[1..]) + tail)
    ensures |lines| == 1 ==> Sent(lines[1..]) + tail == tail
  {
    assert |lines| == 1 ==> Sent(lines[1..]) == "";
  }

  lemma LastEnds(line: string)
    ensures IsLast(line) <==> EndsReply(line)
  {
    if |line| >= 4 && IsDigit(line[0]) && IsDigit(line[1]) && IsDigit(line[2]) {
      assert forall k :: 0 <= k < 3 ==> '0' <= line[k] <= '9';
    }
  }

  /**
   * What a server sends is what the reader gets: as many replies as were sent, in their order, each with
   * the number that begins its last line and all of its lines, and nothing is left over.
   */
  lemma {:induction false} RepliesAreRead(replies: seq<seq<string>>)
    requires forall k :: 0 <= k < |replies| ==> IsReply(replies[k])
    ensures
      var parsed := Parse(Residue(SentAll(replies), []));
      && parsed.rest == Residue("", []) && |parsed.replies| == |replies|
      && forall k :: 0 <= k < |replies| ==> IsRead(replies[k], parsed.replies[k])
    decreases |replies|
  {
    if replies != [] {
      var lines, rest := replies[0], replies[1..];
      var more := Parse(Residue(SentAll(rest), []));
      assert forall k :: 0 <= k < |rest| ==> rest[k] == replies[k + 1];
      assert IsReply(replies[0]);
      LastEnds(lines[|lines| - 1]);
      assert [] + lines == lines;
      ReplyIsParsed(lines, SentAll(rest), [], Reply(CodeOf(lines[|lines| - 1]), Join(lines, "\n")));
      CodeIsItsDigits(lines[|lines| - 1]);
      RepliesAreRead(rest);
      assert Parse(Residue(SentAll(replies), [])) == Parsed([Reply(CodeOf(lines[|lines| - 1]), Join(lines, "\n"))] + more.replies, more.rest);
    }
  }

  /** The reply has the number with which the last line begins, and all the lines. */
  predicate IsRead(lines: seq<string>, reply: Reply) {
    && lines != [] && IsLast(lines[|lines| - 1])
    && reply.text == Join(lines, "\n") && reply.code == DecimalValue(lines[|lines| - 1][..3])
  }

  lemma CodeIsItsDigits(line: string)
    requires IsLast(line) && EndsReply(line)
    ensures CodeOf(line) == DecimalValue(line[..3])
  {
    assert line[..3][..2] == line[..2] && line[..2][..1] == line[..1] && line[..1][..0] == "";
    assert DecimalValue(line[..1]) == Digit(line[0]);
    assert DecimalValue(line[..2]) == 10 * Digit(line[0]) + Digit(line[1]);
  }

  // ------------------------------------------------------------ the connection ----

  ghost predicate Follows(all: Parsed, done: seq<Reply>, rest: Parsed) {
    all.replies == done + rest.replies && all.rest == rest.rest
  }

  function First(waiting: bool, replies: seq<Reply>): seq<Reply> {
    if waiting && replies != [] then [replies[0]] else []
  }

  lemma LineTaken(all: Parsed, done: seq<Reply>, r: Residue, i: nat)
    requires i == IndexOf(r.buffer) && Follows(all, done, Parse(r))
    ensures
      var line, rest := r.buffer[..i], r.buffer[i + 2..];
      if EndsReply(line) then Follows(all, done + [Reply(CodeOf(line), Join(r.lines + [line], "\n"))], Parse(Residue(rest, [])))
      else Follows(all, done, Parse(Residue(rest, r.lines + [line])))
  {
    var taken := TakeLine(r);
    var more := Parse(taken.rest);
    Associates(done, taken.replies, more.replies);
    assert Follows(all, done + taken.replies, more);
    if !EndsReply(r.buffer[..i]) { assert done + [] == done; }
  }

  lemma Associates(a: seq<Reply>, b: seq<Reply>, c: seq<Reply>)
    ensures a + (b + c) == (a + b) + c
  {
  }

  lemma AllTaken(all: Parsed, done: seq<Reply>, r: Residue)
    requires IndexOf(r.buffer) < 0 && Follows(all, done, Parse(r))
    ensures all == Parsed(done, r)
  {
    assert done + [] == done;
  }

  /** Of the replies `done` since `given` was `was`, the caller that waited then has got the first. */
  ghost predicate Answered(was: seq<Reply>, waited: bool, done: seq<Reply>, given: seq<Reply>, waiting: bool) {
    && given == was + First(waited, done)
    && (waiting <==> waited && done == [])
  }

  lemma ReplyAnswers(was: seq<Reply>, waited: bool, done: seq<Reply>, given: seq<Reply>, waiting: bool, reply: Reply)
    requires Answered(was, waited, done, given, waiting)
    ensures Answered(was, waited, done + [reply], if waiting then given + [reply] else given, false)
  {
    if waiting {
      assert done + [reply] == [reply];
    } else if waited {
      assert (done + [reply])[0] == done[0];
    }
  }

  class SmtpConnection {
    var buffer: string
    var lines: seq<string>
    /** A caller waits for the next reply. */
    var pending: bool
    var failed: bool
    /** What callers were given. */
    var delivered: seq<Reply>

    ghost predicate Valid()
      reads this
    {
      IndexOf(buffer) < 0
    }

    constructor ()
      ensures Valid() && buffer == "" && lines == [] && !pending && !failed && delivered == []
    {
      buffer, lines, pending, failed, delivered := "", [], false, false, [];
    }

    method OnData(chunk: string)
      modifies this
      ensures Valid() && failed == old(failed)
      ensures
        var parsed := Feed(Residue(old(buffer), old(lines)), chunk);
        && Residue(buffer, lines) == parsed.rest
        && delivered == old(delivered) + First(old(pending), parsed.replies)
        && (pending <==> old(pending) && parsed.replies == [])
    {
      ghost var all := Feed(Residue(buffer, lines), chunk);
      ghost var done: seq<Reply> := [];
      ghost var was, waited := delivered, pending;
      buffer := buffer + chunk;
      var index := IndexOf(buffer);
      while index >= 0
        invariant index == IndexOf(buffer) && failed == old(failed)
        invariant Follows(all, done, Parse(Residue(buffer, lines)))
        invariant Answered(was, waited, done, delivered, pending)
        decreases |buffer|
      {
        LineTaken(all, done, Residue(buffer, lines), index);
        var line := buffer[..index];
        buffer := buffer[index + 2..];
        lines := lines + [line];
        if EndsReply(line) {
          var reply := Reply(CodeOf(line), Join(lines, "\n"));
          ReplyAnswers(was, waited, done, delivered, pending, reply);
          lines := [];
          if pending { delivered := delivered + [reply]; }
          pending := false;
          done := done + [reply];
        }
        index := IndexOf(buffer);
      }
      AllTaken(all, done, Residue(buffer, lines));
    }

    method Fail()
      modifies this`failed, this`pending
      ensures failed && !pending
    {
      failed := true;
      pending := false;
    }

    method Read() returns (waiting: bool)
      modifies this`pending
      ensures waiting == !failed && (waiting ==> pending) && (!waiting ==> pending == old(pending))
    {
      if failed { return false; }
      pending := true;
      return true;
    }
  }

  /** What a caller that asks again after every reply is given: the first reply of each chunk that completes one. */
  function Given(r: Residue, chunks: seq<string>): seq<Reply>
    decreases |chunks|
  {
    if chunks == [] then []
    else
      var first := Feed(r, chunks[0]);
      (if first.replies == [] then [] else [first.replies[0]]) + Given(first.rest, chunks[1..])
  }

  lemma GivenUnfolds(r: Residue, chunks: seq<string>, i: nat, done: seq<Reply>, all: seq<Reply>)
    requires i < |chunks| && all == done + Given(r, chunks[i..])
    ensures
      var first := Feed(r, chunks[i]);
      all == done + First(true, first.replies) + Given(first.rest, chunks[i + 1..])
  {
    var first := Feed(r, chunks[i]);
    assert chunks[i..][0] == chunks[i] && chunks[i..][1..] == chunks[i + 1..];
    Associates(done, First(true, first.replies), Given(first.rest, chunks[i + 1..]));
  }

  lemma RestUnfolds(r: Residue, chunks: seq<string>, i: nat)
    requires i < |chunks|
    ensures FeedAll(r, chunks[i..]).rest == FeedAll(Feed(r, chunks[i]).rest, chunks[i + 1..]).rest
  {
    assert chunks[i..][0] == chunks[i] && chunks[i..][1..] == chunks[i + 1..];
  }

  /**
   * A caller that reads, and reads again as soon as it has been answered, while the chunks come in: it
   * is given the first reply each chunk completes, and nothing once the connection has failed.
   */
  method Converse(connection: SmtpConnection, chunks: seq<string>)
    requires connection.Valid() && !connection.pending
    modifies connection
    ensures connection.Valid()
    ensures connection.delivered == old(connection.delivered) +
      if old(connection.failed) then [] else Given(Residue(old(connection.buffer), old(connection.lines)), chunks)
    ensures Residue(connection.buffer, connection.lines) == FeedAll(Residue(old(connection.buffer), old(connection.lines)), chunks).rest
  {
    ghost var start := Residue(connection.buffer, connection.lines);
    ghost var all, done := Given(start, chunks), [];
    assert chunks[0..] == chunks;
    for i := 0 to |chunks|
      invariant connection.Valid() && connection.failed == old(connection.failed)
      invariant connection.failed ==> !connection.pending && connection.delivered == old(connection.delivered)
      invariant !connection.failed ==> connection.delivered == old(connection.delivered) + done
      invariant all == done + Given(Residue(connection.buffer, connection.lines), chunks[i..])
      invariant FeedAll(start, chunks).rest == FeedAll(Residue(connection.buffer, connection.lines), chunks[i..]).rest
    {
      ghost var before := Residue(connection.buffer, connection.lines);
      if !connection.pending {
        var waiting := connection.Read();
      }
      connection.OnData(chunks[i]);
      GivenUnfolds(before, chunks, i, done, all);
      RestUnfolds(before, chunks, i);
      done := done + First(true, Feed(before, chunks[i]).replies);
    }
    assert chunks[|chunks|..] == [];
  }

  ghost predicate OneReplyPerChunk(r: Residue, chunks: seq<string>)
    decreases |chunks|
  {
    chunks == [] || (|Feed(r, chunks[0]).replies| <= 1 && OneReplyPerChunk(Feed(r, chunks[0]).rest, chunks[1..]))
  }

  lemma {:induction false} GivenAtMost(r: Residue, chunks: seq<string>)
    ensures |Given(r, chunks)| <= |FeedAll(r, chunks).replies|
    decreases |chunks|
  {
    if chunks != [] { GivenAtMost(Feed(r, chunks[0]).rest, chunks[1..]); }
  }

  /** Parsing does not depend on the chunks, delivery does: nothing is dropped exactly when no chunk completes two replies. */
  lemma {:induction false} NothingDroppedIff(r: Residue, chunks: seq<string>)
    ensures Given(r, chunks) == FeedAll(r, chunks).replies <==> OneReplyPerChunk(r, chunks)
    decreases |chunks|
  {
    if chunks != [] {
      var first := Feed(r, chunks[0]);
      var given := Given(first.rest, chunks[1..]);
      var more := FeedAll(first.rest, chunks[1..]).replies;
      NothingDroppedIff(first.rest, chunks[1..]);
      GivenAtMost(first.rest, chunks[1..]);
      if |first.replies| == 1 {
        assert ([first.replies[0]] + given)[1..] == given && (first.replies + more)[1..] == more;
      } else if |first.replies| == 0 {
        assert first.replies + more == more && [] + given == given;
      } else {
        assert |[first.replies[0]] + given| < |first.replies + more|;
      }
    }
  }

  // -------------------------------------------------------------- the body ----

  const COLUMNS := 76

  /** Base64 text: no dots and no line ends. */
  predicate Plain(s: string) {
    forall i :: 0 <= i < |s| ==> s[i] != '.' && s[i] != '\r' && s[i] != '\n'
  }

  function Pieces(encoded: string): seq<string> {
    if |encoded| == 0 then [] else if |encoded| <= COLUMNS then [encoded] else [encoded[..COLUMNS]] + Pieces(encoded[COLUMNS..])
  }

  method EncodeBody(encoded: string) returns (body: string)
    ensures body == Join(Pieces(encoded), "\r\n")
  {
    var chunks: seq<string> := [];
    var i := 0;
    while i < |encoded|
      invariant 0 <= i
      invariant chunks + Pieces(encoded[if i <= |encoded| then i else |encoded|..]) == Pieces(encoded)
    {
      var end := if i + COLUMNS <= |encoded| then i + COLUMNS else |encoded|;
      ghost var before, tail := chunks, encoded[i..];
      chunks := chunks + [encoded[i..end]];
      assert Pieces(tail) == [encoded[i..end]] + Pieces(encoded[end..]) by {
        if |tail| > COLUMNS {
          assert tail[COLUMNS..] == encoded[end..] && tail[..COLUMNS] == encoded[i..end];
        } else {
          assert tail == encoded[i..end] && encoded[end..] == "";
        }
      }
      assert chunks + Pieces(encoded[end..]) == before + Pieces(tail);
      i := i + COLUMNS;
    }
    assert chunks == chunks + Pieces(encoded[|encoded|..]);
    body := Join(chunks, "\r\n");
  }

  /** No line is longer than 76 columns, and only the last one may be shorter. */
  lemma {:induction false} LinesAreFull(encoded: string, k: nat)
    requires k < |Pieces(encoded)|
    ensures 0 < |Pieces(encoded)[k]| <= 76
    ensures k < |Pieces(encoded)| - 1 ==> |Pieces(encoded)[k]| == 76
    decreases |encoded|
  {
    if |encoded| > COLUMNS && k > 0 { LinesAreFull(encoded[COLUMNS..], k - 1); }
  }

  /** The lines put together again are the text that was wrapped. */
  lemma {:induction false} UnwrappingRestores(encoded: string)
    ensures Concat(Pieces(encoded)) == encoded
    decreases |encoded|
  {
    if |encoded| > COLUMNS {
      UnwrappingRestores(encoded[COLUMNS..]);
      assert encoded[..COLUMNS] + encoded[COLUMNS..] == encoded;
    } else if |encoded| > 0 {
      assert Pieces(encoded)[1..] == [];
      assert encoded + "" == encoded;
    }
  }

  predicate TerminatorAt(s: string, i: nat) {
    i + 4 < |s| && s[i] == '\r' && s[i + 1] == '\n' && s[i + 2] == '.' && s[i + 3] == '\r' && s[i + 4] == '\n'
  }

  lemma {:induction false} JoinHasNoDot(lines: seq<string>)
    requires forall k :: 0 <= k < |lines| ==> Plain(lines[k])
    ensures '.' !in Join(lines, "\r\n")
  {
    if |lines| > 1 { JoinHasNoDot(lines[1..]); }
  }

  lemma {:induction false} PiecesArePlain(encoded: string)
    requires Plain(encoded)
    ensures forall k :: 0 <= k < |Pieces(encoded)| ==> Plain(Pieces(encoded)[k])
    decreases |encoded|
  {
    if |encoded| > COLUMNS { PiecesArePlain(encoded[COLUMNS..]); }
  }

  /** The end of data after the body is the only one in it: nothing needs to be escaped. */
  lemma TerminatorOnlyAtEnd(encoded: string, i: nat)
    requires Plain(encoded)
    ensures
      var body := Join(Pieces(encoded), "\r\n");
      TerminatorAt(body + "\r\n.\r\n", i) <==> i == |body|
  {
    PiecesArePlain(encoded);
    JoinHasNoDot(Pieces(encoded));
    var body := Join(Pieces(encoded), "\r\n");
    var data := body + "\r\n.\r\n";
    assert data[|body|..] == "\r\n.\r\n";
    assert data[|body|] == '\r' && data[|body| + 1] == '\n' && data[|body| + 2] == '.' && data[|body| + 3] == '\r' && data[|body| + 4] == '\n';
    if i + 2 < |body| { assert data[i + 2] == body[i + 2]; }
  }
}
