/** How the socket readers cut a byte stream into lines. */
module Framing {
  import opened Collections

  /** A C string ends at its first NUL. */
  function CString(s: string): string
  {
    if s == "" || s[0] == '\0' then "" else [s[0]] + CString(s[1..])
  }

  function FirstNewline(s: string): (n: nat)
    ensures n <= |s| && '\n' !in s[..n] && (n < |s| ==> s[n] == '\n')
    ensures n < |s| <==> '\n' in s
  {
    if s == "" || s[0] == '\n' then 0 else
      assert s == [s[0]] + s[1..];
      var n := 1 + FirstNewline(s[1..]);
      assert s[..n] == [s[0]] + s[1..][..n - 1];
      n
  }

  function WithoutCr(line: string): string
  {
    if line != "" && line[|line| - 1] == '\r' then line[..|line| - 1] else line
  }

  /** The complete lines of a stream, each without one trailing CR. */
  function Lines(s: string): seq<string>
    decreases |s|
  {
    var n := FirstNewline(s);
    if n == |s| then [] else [WithoutCr(s[..n])] + Lines(s[n + 1..])
  }

  /** What follows the last newline. */
  function Rest(s: string): (r: string)
    ensures '\n' !in r
    decreases |s|
  {
    var n := FirstNewline(s);
    if n == |s| then s[..n] else Rest(s[n + 1..])
  }

  lemma {:induction false} FirstNewlineIs(s: string, n: nat)
    requires n <= |s| && '\n' !in s[..n] && (n < |s| ==> s[n] == '\n')
    ensures FirstNewline(s) == n
  {
    if n > 0 {
      assert s[..n] == [s[0]] + s[1..][..n - 1];
      FirstNewlineIs(s[1..], n - 1);
    }
  }

  lemma LinesStep(s: string)
    ensures var n := FirstNewline(s);
            Lines(s) == if n == |s| then [] else [WithoutCr(s[..n])] + Lines(s[n + 1..])
  {
    hide FirstNewline, WithoutCr, Rest;
  }

  lemma RestStep(s: string)
    ensures var n := FirstNewline(s);
            Rest(s) == if n == |s| then s[..n] else Rest(s[n + 1..])
  {
    hide FirstNewline, WithoutCr, Lines;
  }

  lemma LinesOf(s: string)
    ensures var n := FirstNewline(s);
            if n == |s| then Lines(s) == [] && Rest(s) == s
            else Lines(s) == [WithoutCr(s[..n])] + Lines(s[n + 1..]) && Rest(s) == Rest(s[n + 1..])
  {
    hide FirstNewline, WithoutCr, Lines, Rest;
    LinesStep(s);
    RestStep(s);
    assert s[..|s|] == s;
  }

  /** Reading a stream in two parts. */
  lemma {:induction false} LinesAppend(a: string, b: string)
    ensures Lines(a + b) == Lines(a) + Lines(Rest(a) + b)
    ensures Rest(a + b) == Rest(Rest(a) + b)
    decreases |a|
  {
    hide Lines, Rest;
    var n := FirstNewline(a);
    LinesOf(a);
    if n < |a| {
      var a' := a[n + 1..];
      assert (a + b)[..n] == a[..n] && (a + b)[n + 1..] == a' + b;
      FirstNewlineIs(a + b, n);
      LinesOf(a + b);
      LinesAppend(a', b);
      Associative([WithoutCr(a[..n])], Lines(a'), Lines(Rest(a') + b));
    } else {
      assert [] + Lines(a + b) == Lines(a + b);
    }
  }

  // ----- What the lines of a stream are -----

  /** `line` is what is handled of the raw line `raw`: all of it, except for one final CR. */
  ghost predicate HandledAs(raw: string, line: string)
  {
    raw == line + "\r" || (raw == line && (raw == "" || raw[|raw| - 1] != '\r'))
  }

  /** The raw lines, each ended by a newline. */
  function Unlined(raws: seq<string>): string
  {
    if raws == [] then "" else raws[0] + "\n" + Unlined(raws[1..])
  }

  /** The stream consists of the raw lines of `ls`, each ended by a newline, and `rest`. */
  ghost predicate CutInto(s: string, raws: seq<string>, ls: seq<string>, rest: string)
  {
    && s == Unlined(raws) + rest && '\n' !in rest
    && |raws| == |ls|
    && forall k | 0 <= k < |raws| :: '\n' !in raws[k] && HandledAs(raws[k], ls[k])
  }

  lemma HandledIff(raw: string, line: string)
    ensures WithoutCr(raw) == line <==> HandledAs(raw, line)
  {
    if raw != "" {
      assert raw == raw[..|raw| - 1] + [raw[|raw| - 1]];
    }
    if raw == line + "\r" {
      assert raw[..|raw| - 1] == line;
    }
  }

  lemma {:induction false} LinesCut(s: string) returns (raws: seq<string>)
    ensures CutInto(s, raws, Lines(s), Rest(s))
    decreases |s|
  {
    var n := FirstNewline(s);
    LinesOf(s);
    hide Lines, Rest, WithoutCr, HandledAs, FirstNewline;
    if n == |s| {
      raws := [];
    } else {
      var more := LinesCut(s[n + 1..]);
      HandledIff(s[..n], WithoutCr(s[..n]));
      raws := [s[..n]] + more;
      assert raws[1..] == more && raws[0] == s[..n];
      assert s == s[..n] + "\n" + s[n + 1..];
      assert s == Unlined(raws) + Rest(s);
    }
  }

  lemma {:induction false} CutIsLines(s: string, raws: seq<string>, ls: seq<string>, rest: string)
    requires CutInto(s, raws, ls, rest)
    ensures ls == Lines(s) && rest == Rest(s)
    decreases |raws|
  {
    hide Lines, Rest, WithoutCr, HandledAs, FirstNewline;
    if raws == [] {
      assert s == rest && s[..|s|] == s;
      FirstNewlineIs(s, |s|);
    } else {
      var n, more := |raws[0]|, Unlined(raws[1..]) + rest;
      assert s == raws[0] + "\n" + more;
      assert s[..n] == raws[0] && s[n] == '\n' && s[n + 1..] == more;
      FirstNewlineIs(s, n);
      HandledIff(raws[0], ls[0]);
      assert CutInto(more, raws[1..], ls[1..], rest);
      CutIsLines(more, raws[1..], ls[1..], rest);
      assert ls == [ls[0]] + ls[1..];
    }
    LinesOf(s);
  }

  /** Exactly the newlines end lines, and of each line exactly one final CR is dropped. */
  lemma LinesIff(s: string, ls: seq<string>, rest: string)
    ensures ls == Lines(s) && rest == Rest(s) <==> exists raws :: CutInto(s, raws, ls, rest)
  {
    hide CutInto, Lines, Rest;
    var raws := LinesCut(s);
    forall raws | CutInto(s, raws, ls, rest)
      ensures ls == Lines(s) && rest == Rest(s)
    {
      CutIsLines(s, raws, ls, rest);
    }
  }

  /** What the reader has taken in after the given reads: each read counts up to its first NUL. */
  function Received(chunks: seq<string>): string
  {
    if chunks == [] then "" else Received(chunks[..|chunks| - 1]) + CString(chunks[|chunks| - 1])
  }

  function Concat(chunks: seq<string>): string
  {
    if chunks == [] then "" else Concat(chunks[..|chunks| - 1]) + chunks[|chunks| - 1]
  }

  lemma {:induction false} CStringWhole(s: string)
    ensures CString(s) == s <==> '\0' !in s
    ensures '\0' !in CString(s)
  {
    if s != "" {
      assert s == [s[0]] + s[1..];
      CStringWhole(s[1..]);
    }
  }

  /** A read counts exactly up to its first NUL. */
  lemma {:induction false} CStringIff(s: string, r: string)
    ensures r == CString(s) <==> r <= s && '\0' !in r && (r == s || s[|r|] == '\0')
  {
    if s != "" && s[0] != '\0' {
      if r != "" {
        CStringIff(s[1..], r[1..]);
        assert r == [r[0]] + r[1..];
        assert s == [s[0]] + s[1..];
      }
    }
  }

  /** Nothing is lost exactly when no read contains a NUL. */
  lemma {:induction false} ReceivedWholeIff(chunks: seq<string>)
    ensures Received(chunks) == Concat(chunks) <==> forall k | 0 <= k < |chunks| :: '\0' !in chunks[k]
    ensures |Received(chunks)| <= |Concat(chunks)|
  {
    if chunks != [] {
      var before, last := chunks[..|chunks| - 1], chunks[|chunks| - 1];
      ReceivedWholeIff(before);
      CStringWhole(last);
      CStringShorter(last);
      if Received(chunks) == Concat(chunks) {
        assert |Received(before)| == |Concat(before)|;
        assert Received(chunks)[..|Received(before)|] == Received(before);
        assert Concat(chunks)[..|Concat(before)|] == Concat(before);
        assert Received(chunks)[|Received(before)|..] == CString(last);
        assert Concat(chunks)[|Concat(before)|..] == last;
      }
      assert forall k | 0 <= k < |before| :: before[k] == chunks[k];
    }
  }

  lemma {:induction false} CStringShorter(s: string)
    ensures |CString(s)| <= |s|
  {
    if s != "" {
      CStringShorter(s[1..]);
    }
  }

  // ----- The peer reader -----

  /** The buffer and the lines handled after one read. */
  function ReadPeer(buffer: string, chunk: string): (string, seq<string>)
  {
    (Rest(buffer + CString(chunk)), Lines(buffer + CString(chunk)))
  }

  function PeerRun(chunks: seq<string>): (string, seq<string>)
  {
    if chunks == [] then ("", []) else
    var (buffer, handled) := PeerRun(chunks[..|chunks| - 1]);
    var (buffer', lines) := ReadPeer(buffer, chunks[|chunks| - 1]);
    (buffer', handled + lines)
  }

  /** However the stream is cut into reads, the peer reader handles exactly the lines of what it
      received, in order, and keeps what follows the last newline. */
  lemma {:induction false} PeerHandlesAllLines(chunks: seq<string>)
    ensures PeerRun(chunks) == (Rest(Received(chunks)), Lines(Received(chunks)))
  {
    if chunks == [] {
      assert Lines("") == [] && Rest("") == "";
    } else {
      PeerHandlesAllLines(chunks[..|chunks| - 1]);
      LinesAppend(Received(chunks[..|chunks| - 1]), CString(chunks[|chunks| - 1]));
    }
  }

  /** The cut does not matter: reads that carry the same NUL-free stream are handled alike. */
  lemma PeerIgnoresCuts(chunks: seq<string>, chunks': seq<string>)
    requires Concat(chunks) == Concat(chunks')
    requires (forall k | 0 <= k < |chunks| :: '\0' !in chunks[k]) && (forall k | 0 <= k < |chunks'| :: '\0' !in chunks'[k])
    ensures PeerRun(chunks) == PeerRun(chunks')
  {
    PeerHandlesAllLines(chunks);
    PeerHandlesAllLines(chunks');
    ReceivedWholeIff(chunks);
    ReceivedWholeIff(chunks');
  }

  // ----- The client reader -----

  /** What mainCommand answers to the n-th line of a client: 0 to go on, 1 to close, 2 when the
      command was handed to a thread. Lines that are no JSON count as 0. */
  type Answers = (nat, string) -> int

  /** The lines up to and including the first that ends the connection. */
  function UntilEnd(lines: seq<string>, answers: Answers, n: nat): (r: seq<string>)
    ensures r <= lines
  {
    if lines == [] then [] else
    if answers(n, lines[0]) == 1 || answers(n, lines[0]) == 2 then [lines[0]]
    else [lines[0]] + UntilEnd(lines[1..], answers, n + 1)
  }

  /** Does one of the lines end the connection? */
  predicate Ends(lines: seq<string>, answers: Answers, n: nat)
  {
    lines != [] && (answers(n, lines[0]) == 1 || answers(n, lines[0]) == 2 || Ends(lines[1..], answers, n + 1))
  }

  datatype Client = Client(open: bool, buffer: string, handled: seq<string>)

  function ReadClient(c: Client, chunk: string, answers: Answers): Client
  {
    if !c.open then c else
    var s := c.buffer + CString(chunk);
    var n := |c.handled|;
    if Ends(Lines(s), answers, n) then Client(false, "", c.handled + UntilEnd(Lines(s), answers, n))
    else Client(true, Rest(s), c.handled + Lines(s))
  }

  function ClientRun(chunks: seq<string>, answers: Answers): Client
  {
    if chunks == [] then Client(true, "", [])
    else ReadClient(ClientRun(chunks[..|chunks| - 1], answers), chunks[|chunks| - 1], answers)
  }

  lemma {:induction false} UntilEndAppend(a: seq<string>, b: seq<string>, answers: Answers, n: nat)
    ensures Ends(a + b, answers, n) <==> Ends(a, answers, n) || Ends(b, answers, n + |a|)
    ensures UntilEnd(a + b, answers, n)
         == if Ends(a, answers, n) then UntilEnd(a, answers, n) else a + UntilEnd(b, answers, n + |a|)
  {
    if a == [] {
      assert a + b == b;
    } else {
      assert (a + b)[1..] == a[1..] + b;
      UntilEndAppend(a[1..], b, answers, n + 1);
    }
  }

  lemma {:induction false} UntilEndAll(lines: seq<string>, answers: Answers, n: nat)
    requires !Ends(lines, answers, n)
    ensures UntilEnd(lines, answers, n) == lines
  {
    if lines != [] {
      UntilEndAll(lines[1..], answers, n + 1);
    }
  }

  /** The client reader has handled the lines of `received` up to and including the first one that
      closes the connection or hands it off, and is open exactly when there is none. */
  ghost predicate HandledUntilEnd(c: Client, received: string, answers: Answers)
  {
    && c.handled == UntilEnd(Lines(received), answers, 0)
    && (c.open <==> !Ends(Lines(received), answers, 0))
    && (c.open ==> c.buffer == Rest(received))
  }

  lemma ClientStep(c: Client, received: string, chunk: string, answers: Answers)
    requires HandledUntilEnd(c, received, answers)
    ensures HandledUntilEnd(ReadClient(c, chunk, answers), received + CString(chunk), answers)
  {
    hide Lines, Rest, Ends, UntilEnd, CString;
    var done, more := Lines(received), Lines(Rest(received) + CString(chunk));
    LinesAppend(received, CString(chunk));
    UntilEndAppend(done, more, answers, 0);
    if c.open {
      UntilEndAll(done, answers, 0);
      if !Ends(more, answers, |done|) {
        UntilEndAll(more, answers, |done|);
      }
    }
  }

  lemma {:induction false} RunHandlesUntilEnd(chunks: seq<string>, answers: Answers)
    ensures HandledUntilEnd(ClientRun(chunks, answers), Received(chunks), answers)
  {
    if chunks != [] {
      hide HandledUntilEnd, ReadClient, CString;
      RunHandlesUntilEnd(chunks[..|chunks| - 1], answers);
      ClientStep(ClientRun(chunks[..|chunks| - 1], answers), Received(chunks[..|chunks| - 1]), chunks[|chunks| - 1], answers);
    } else {
      assert Lines("") == [] && Rest("") == "";
    }
  }

  /** Line `k` closes the connection or hands it off. */
  predicate EndsAt(lines: seq<string>, answers: Answers, k: nat)
    requires k < |lines|
  {
    answers(k, lines[k]) == 1 || answers(k, lines[k]) == 2
  }

  /** Line `k` is the first to do so. */
  ghost predicate FirstEnd(lines: seq<string>, answers: Answers, k: nat)
  {
    k < |lines| && EndsAt(lines, answers, k) && forall j: nat | j < k :: !EndsAt(lines, answers, j)
  }

  lemma {:induction false} UntilFirstEnd(lines: seq<string>, answers: Answers, done: nat)
    requires done <= |lines| && forall j: nat | j < done :: !EndsAt(lines, answers, j)
    ensures if Ends(lines[done..], answers, done) then
              exists k: nat :: FirstEnd(lines, answers, k) && done <= k && UntilEnd(lines[done..], answers, done) == lines[done..k + 1]
            else forall j: nat | j < |lines| :: !EndsAt(lines, answers, j)
    decreases |lines| - done
  {
    if done < |lines| {
      assert lines[done..][1..] == lines[done + 1..] && lines[done..][0] == lines[done];
      if EndsAt(lines, answers, done) {
        assert FirstEnd(lines, answers, done) && lines[done..done + 1] == [lines[done]];
      } else {
        UntilFirstEnd(lines, answers, done + 1);
        if k: nat :| FirstEnd(lines, answers, k) && done < k && UntilEnd(lines[done + 1..], answers, done + 1) == lines[done + 1..k + 1] {
          assert [lines[done]] + lines[done + 1..k + 1] == lines[done..k + 1];
        }
      }
    }
  }

  /** However the stream is cut into reads: if some line ends the connection, the lines up to and
      including the first one that does are handled and it is closed; otherwise all are handled, it is
      open, and what follows the last newline is kept. */
  lemma ClientHandlesUntilEnd(chunks: seq<string>, answers: Answers)
    ensures var (c, lines) := (ClientRun(chunks, answers), Lines(Received(chunks)));
            && (forall k: nat | FirstEnd(lines, answers, k) :: !c.open && c.handled == lines[..k + 1])
            && ((forall k: nat | k < |lines| :: !EndsAt(lines, answers, k)) ==>
                  c == Client(true, Rest(Received(chunks)), lines))
  {
    hide Lines, Rest, Received, ClientRun;
    var lines := Lines(Received(chunks));
    RunHandlesUntilEnd(chunks, answers);
    UntilFirstEnd(lines, answers, 0);
    assert lines[0..] == lines;
    if Ends(lines, answers, 0) {
      var k: nat :| FirstEnd(lines, answers, k) && UntilEnd(lines, answers, 0) == lines[0..k + 1];
      forall j: nat | FirstEnd(lines, answers, j)
        ensures j == k
      {
        assert !(j < k) && !(k < j);
      }
    } else {
      UntilEndAll(lines, answers, 0);
    }
  }

  // ----- As they run -----

  class PeerConnection {
    var buffer: string
    var handled: seq<string>

    constructor ()
      ensures buffer == "" && handled == []
    {
      buffer, handled := "", [];
    }

    method HandlePeerData(chunk: string)
      modifies this
      ensures (buffer, handled) == (ReadPeer(old(buffer), chunk).0, old(handled) + ReadPeer(old(buffer), chunk).1)
    {
      hide Lines, Rest, CString, FirstNewline;
      buffer := buffer + CString(chunk);
      ghost var s := buffer;
      var pos := FirstNewline(buffer);
      while pos < |buffer|
        invariant pos == FirstNewline(buffer)
        invariant handled + Lines(buffer) == old(handled) + Lines(s)
        invariant Rest(buffer) == Rest(s)
        decreases |buffer|
      {
        LinesOf(buffer);
        var message := buffer[..pos];
        Associative(handled, [WithoutCr(message)], Lines(buffer[pos + 1..]));
        buffer := buffer[pos + 1..];
        if message != "" && message[|message| - 1] == '\r' {
          message := message[..|message| - 1];
        }
        handled := handled + [message];
        pos := FirstNewline(buffer);
      }
      LinesOf(buffer);
      assert handled + [] == handled;
    }
  }

  class ClientConnection {
    var open: bool
    var buffer: string
    var handled: seq<string>

    function State(): Client
      reads this
    {
      Client(open, buffer, handled)
    }

    constructor ()
      ensures State() == Client(true, "", [])
    {
      open, buffer, handled := true, "", [];
    }

    method HandleClientData(chunk: string, answers: Answers)
      requires open
      modifies this
      ensures State() == ReadClient(old(State()), chunk, answers)
    {
      buffer := buffer + CString(chunk);
      ghost var s, was := buffer, handled;
      hide Lines, Rest, Ends, UntilEnd, CString, FirstNewline, WithoutCr;
      var pos := FirstNewline(buffer);
      while pos < |buffer|
        invariant open && pos == FirstNewline(buffer)
        invariant Continues(was, s, handled, buffer, answers)
        decreases |buffer|
      {
        var command := WithoutCr(buffer[..pos]);
        NextCommand(was, s, handled, buffer, answers);
        var answer := answers(|handled|, command);
        handled := handled + [command];
        if answer == 1 || answer == 2 {
          open, buffer := false, "";
          return;
        }
        buffer := buffer[pos + 1..];
        pos := FirstNewline(buffer);
      }
      NoCommand(was, s, handled, buffer, answers);
    }
  }

  /** In the middle of a read: what is still to come from `buffer` completes what the read makes of `s`. */
  ghost predicate Continues(was: seq<string>, s: string, handled: seq<string>, buffer: string, answers: Answers)
  {
    && handled + Lines(buffer) == was + Lines(s)
    && was + UntilEnd(Lines(s), answers, |was|) == handled + UntilEnd(Lines(buffer), answers, |handled|)
    && Ends(Lines(s), answers, |was|) == Ends(Lines(buffer), answers, |handled|)
    && Rest(buffer) == Rest(s)
  }

  lemma NextCommand(was: seq<string>, s: string, handled: seq<string>, buffer: string, answers: Answers)
    requires Continues(was, s, handled, buffer, answers) && FirstNewline(buffer) < |buffer|
    ensures var pos := FirstNewline(buffer);
            var command, n := WithoutCr(buffer[..pos]), |handled|;
            if answers(n, command) == 1 || answers(n, command) == 2 then
              Ends(Lines(s), answers, |was|) && was + UntilEnd(Lines(s), answers, |was|) == handled + [command]
            else Continues(was, s, handled + [command], buffer[pos + 1..], answers)
  {
    hide Lines, Rest, FirstNewline, WithoutCr;
    var pos := FirstNewline(buffer);
    var command, rest := WithoutCr(buffer[..pos]), Lines(buffer[pos + 1..]);
    LinesOf(buffer);
    assert Lines(buffer)[0] == command && Lines(buffer)[1..] == rest;
    Associative(handled, [command], rest);
    Associative(handled, [command], UntilEnd(rest, answers, |handled| + 1));
  }

  lemma NoCommand(was: seq<string>, s: string, handled: seq<string>, buffer: string, answers: Answers)
    requires Continues(was, s, handled, buffer, answers) && FirstNewline(buffer) == |buffer|
    ensures !Ends(Lines(s), answers, |was|) && handled == was + Lines(s) && buffer == Rest(s)
  {
    hide Lines, Rest;
    LinesOf(buffer);
    assert handled + [] == handled;
  }
}
