/** Splitting and joining text: JavaScript's `split` and `join` with a one-character separator, and the
    newline framing both ends of the protocol use. */
module Text {

  const NEWLINE := '\n'

  function Split(s: string, c: char): (words: seq<string>)
    ensures |words| >= 1
  {
    if s == "" then [""]
    else
      var rest := Split(s[1..], c);
      if s[0] == c then [""] + rest else [[s[0]] + rest[0]] + rest[1..]
  }

  function JoinWith(words: seq<string>, c: char): string {
    if words == [] then "" else if |words| == 1 then words[0] else words[0] + [c] + JoinWith(words[1..], c)
  }

  /** Lines of length zero are skipped by both receive loops. */
  function NonEmpty(lines: seq<string>): seq<string> {
    if lines == [] then [] else (if lines[0] == "" then [] else [lines[0]]) + NonEmpty(lines[1..])
  }

  /** The lines one received chunk is handled as. */
  function Received(chunk: string): seq<string> {
    NonEmpty(Split(chunk, NEWLINE))
  }

  /** What `send` writes for each message, given its encoding. */
  function Sent(messages: seq<string>): string {
    if messages == [] then "" else messages[0] + [NEWLINE] + Sent(messages[1..])
  }

  predicate Frameable(message: string) {
    message != "" && NEWLINE !in message
  }

  // ------------------------------------------------------------ splitting

  lemma {:induction false} JoinSplit(s: string, c: char)
    ensures JoinWith(Split(s, c), c) == s
  {
    if s == "" {
    } else {
      JoinSplit(s[1..], c);
      var rest := Split(s[1..], c);
      if s[0] == c {
        assert ([""] + rest)[1..] == rest;
      } else if |rest| > 1 {
        assert ([[s[0]] + rest[0]] + rest[1..])[1..] == rest[1..];
        assert JoinWith(rest, c) == rest[0] + [c] + JoinWith(rest[1..], c);
      }
    }
  }

  /** Two lists of pieces, with the two pieces that meet run together. */
  function Fuse(x: seq<string>, y: seq<string>): (z: seq<string>)
    requires x != [] && y != []
    ensures z != []
  {
    if |x| == 1 then [x[0] + y[0]] + y[1..] else [x[0]] + Fuse(x[1..], y)
  }

  lemma FuseSeparated(r: seq<string>, y: seq<string>)
    requires r != [] && y != []
    ensures Fuse([""] + r, y) == [""] + Fuse(r, y)
  {
    assert ([""] + r)[1..] == r;
  }

  lemma FuseLonger(d: char, r: seq<string>, y: seq<string>)
    requires r != [] && y != []
    ensures Fuse([[d] + r[0]] + r[1..], y) == [[d] + Fuse(r, y)[0]] + Fuse(r, y)[1..]
  {
    var x := [[d] + r[0]] + r[1..];
    assert x[1..] == r[1..];
    if |r| == 1 {
      assert [d] + (r[0] + y[0]) == ([d] + r[0]) + y[0];
      assert Fuse(r, y)[1..] == y[1..];
    } else {
      assert Fuse(r, y)[1..] == Fuse(r[1..], y);
    }
  }

  lemma SplitCons(d: char, s: string, c: char)
    ensures Split([d] + s, c) == if d == c then [""] + Split(s, c) else [[d] + Split(s, c)[0]] + Split(s, c)[1..]
  {
    assert ([d] + s)[1..] == s;
  }

  lemma {:induction false} SplitConcat(a: string, b: string, c: char)
    ensures Split(a + b, c) == Fuse(Split(a, c), Split(b, c))
  {
    var y := Split(b, c);
    if a == "" {
      assert a + b == b;
      assert "" + y[0] == y[0];
    } else {
      SplitConcat(a[1..], b, c);
      SplitCons(a[0], a[1..], c);
      SplitCons(a[0], a[1..] + b, c);
      assert a == [a[0]] + a[1..] && a + b == [a[0]] + (a[1..] + b);
      var r := Split(a[1..], c);
      FuseSeparated(r, y);
      FuseLonger(a[0], r, y);
    }
  }

  lemma {:induction false} SplitPlain(s: string, c: char)
    requires c !in s
    ensures Split(s, c) == [s]
  {
    if s == "" {
    } else {
      assert s[0] in s;
      assert forall d :: d in s[1..] ==> d in s;
      SplitPlain(s[1..], c);
      assert [s[0]] + s[1..] == s;
    }
  }

  lemma SplitFirst(word: string, rest: string, c: char)
    requires c !in word
    ensures Split(word + [c] + rest, c) == [word] + Split(rest, c)
  {
    SplitPlain(word, c);
    var tail := [c] + rest;
    assert tail[1..] == rest;
    assert word + [c] + rest == word + tail;
    SplitConcat(word, tail, c);
    assert Split(tail, c) == [""] + Split(rest, c);
    assert word + "" == word;
    assert Split(tail, c)[1..] == Split(rest, c);
  }

  lemma {:induction false} SplitPieces(s: string, c: char)
    ensures forall k :: 0 <= k < |Split(s, c)| ==> c !in Split(s, c)[k]
  {
    if s == "" {
    } else {
      SplitPieces(s[1..], c);
      var rest := Split(s[1..], c);
      forall k | 0 <= k < |Split(s, c)| ensures c !in Split(s, c)[k] {
        if s[0] == c {
          if k > 0 { assert Split(s, c)[k] == rest[k - 1]; }
        } else {
          if k > 0 { assert Split(s, c)[k] == rest[k]; }
        }
      }
    }
  }

  // ------------------------------------------------------------ framing

  lemma NonEmptyStep(lines: seq<string>, i: nat)
    requires i < |lines|
    ensures NonEmpty(lines[i..]) == if lines[i] == "" then NonEmpty(lines[i + 1..]) else [lines[i]] + NonEmpty(lines[i + 1..])
  {
    assert lines[i..][1..] == lines[i + 1..];
    assert [] + NonEmpty(lines[i + 1..]) == NonEmpty(lines[i + 1..]);
  }

  lemma {:induction false} NonEmptyMembers(lines: seq<string>)
    ensures forall line :: line in NonEmpty(lines) <==> line in lines && line != ""
  {
    if lines == [] {
    } else {
      NonEmptyMembers(lines[1..]);
      assert lines == [lines[0]] + lines[1..];
    }
  }

  lemma EmptyReceived()
    ensures Received("") == []
  {
    assert Split("", NEWLINE) == [""];
    assert [""][1..] == [];
  }

  /** Round trip: what `send` wrote for any messages is received as exactly those messages. */
  lemma {:induction false} FramingRoundTrip(messages: seq<string>)
    requires forall k :: 0 <= k < |messages| ==> Frameable(messages[k])
    ensures Received(Sent(messages)) == messages
  {
    if messages == [] {
      EmptyReceived();
    } else {
      var m, rest := messages[0], messages[1..];
      FramingRoundTrip(rest);
      SplitFirst(m, Sent(rest), NEWLINE);
      var lines := [m] + Split(Sent(rest), NEWLINE);
      assert lines[1..] == Split(Sent(rest), NEWLINE);
    }
  }

  function ReceivedAll(chunks: seq<string>): seq<string> {
    if chunks == [] then [] else Received(chunks[0]) + ReceivedAll(chunks[1..])
  }

  function Concat<T>(groups: seq<seq<T>>): seq<T> {
    if groups == [] then [] else groups[0] + Concat(groups[1..])
  }

  /** However a stream is divided into chunks at message boundaries, the receiver handles exactly the messages sent. */
  lemma {:induction false} FramingInChunks(groups: seq<seq<string>>)
    requires forall g, k :: 0 <= g < |groups| && 0 <= k < |groups[g]| ==> Frameable(groups[g][k])
    ensures ReceivedAll(seq(|groups|, g requires 0 <= g < |groups| => Sent(groups[g]))) == Concat(groups)
  {
    var chunks := seq(|groups|, g requires 0 <= g < |groups| => Sent(groups[g]));
    if groups == [] {
    } else {
      var rest := groups[1..];
      FramingInChunks(rest);
      FramingRoundTrip(groups[0]);
      assert chunks[1..] == seq(|rest|, g requires 0 <= g < |rest| => Sent(rest[g]));
    }
  }

  predicate EndsLine(s: string) {
    s == "" || s[|s| - 1] == NEWLINE
  }

  predicate StartsLine(s: string) {
    s == "" || s[0] == NEWLINE
  }

  lemma {:induction false} LastPiece(s: string)
    ensures Split(s, NEWLINE)[|Split(s, NEWLINE)| - 1] == "" <==> EndsLine(s)
  {
    if s == "" {
    } else {
      LastPiece(s[1..]);
    }
  }

  lemma FirstPiece(s: string)
    ensures Split(s, NEWLINE)[0] == "" <==> StartsLine(s)
  {
  }

  lemma NonEmptyCons(line: string, rest: seq<string>)
    ensures NonEmpty([line] + rest) == if line == "" then NonEmpty(rest) else [line] + NonEmpty(rest)
  {
    assert ([line] + rest)[1..] == rest;
    assert [] + NonEmpty(rest) == NonEmpty(rest);
  }

  lemma Assoc<T>(a: seq<T>, b: seq<T>, c: seq<T>)
    ensures a + (b + c) == (a + b) + c
  {
  }

  lemma FuseOne(last: string, first: string, back: seq<string>)
    ensures
      var whole, parts := NonEmpty([last + first] + back), NonEmpty([last]) + NonEmpty([first] + back);
      if last == "" || first == "" then whole == parts else |whole| == |parts| - 1
  {
    NonEmptyCons(last + first, back);
    NonEmptyCons(first, back);
    NonEmptyCons(last, []);
    assert [last] + [] == [last];
    if last == "" { assert last + first == first; }
    if first == "" { assert last + first == last; }
  }

  /** Running two lists of lines together loses no line, or one where two that are not empty meet. */
  predicate FuseCounts(x: seq<string>, y: seq<string>)
    requires x != [] && y != []
  {
    var whole, parts := NonEmpty(Fuse(x, y)), NonEmpty(x) + NonEmpty(y);
    if x[|x| - 1] == "" || y[0] == "" then whole == parts else |whole| == |parts| - 1
  }

  lemma FuseCons(first: string, rest: seq<string>, y: seq<string>)
    requires rest != [] && y != []
    ensures Fuse([first] + rest, y) == [first] + Fuse(rest, y)
  {
    assert ([first] + rest)[1..] == rest;
  }

  lemma FuseMore(first: string, rest: seq<string>, y: seq<string>)
    requires rest != [] && y != [] && FuseCounts(rest, y)
    ensures FuseCounts([first] + rest, y)
  {
    FuseCons(first, rest, y);
    NonEmptyCons(first, rest);
    NonEmptyCons(first, Fuse(rest, y));
    if first != "" { Assoc([first], NonEmpty(rest), NonEmpty(y)); }
  }

  lemma {:induction false} NonEmptyFuse(x: seq<string>, y: seq<string>)
    requires x != [] && y != []
    ensures FuseCounts(x, y)
  {
    if |x| == 1 {
      FuseOne(x[0], y[0], y[1..]);
      assert x == [x[0]] && y == [y[0]] + y[1..];
    } else {
      NonEmptyFuse(x[1..], y);
      FuseMore(x[0], x[1..], y);
      assert x == [x[0]] + x[1..];
    }
  }

  /** Exactly when it does not matter that a stream is cut in two chunks at this point:
      the receiver keeps nothing from one chunk to the next, so the cut must stand beside a newline. */
  lemma CutIsHarmless(a: string, b: string)
    ensures Received(a) + Received(b) == Received(a + b) <==> EndsLine(a) || StartsLine(b)
  {
    SplitConcat(a, b, NEWLINE);
    LastPiece(a);
    FirstPiece(b);
    NonEmptyFuse(Split(a, NEWLINE), Split(b, NEWLINE));
  }

  /** A text is received as the one line it is exactly when it is not empty and has no newline in it. */
  lemma WholeLine(s: string)
    ensures Received(s) == [s] <==> Frameable(s)
  {
    NonEmptyMembers(Split(s, NEWLINE));
    SplitPieces(s, NEWLINE);
    if Frameable(s) {
      SplitPlain(s, NEWLINE);
      NonEmptyCons(s, []);
      assert [s] + [] == [s];
    }
    if Received(s) == [s] {
      assert s in Received(s);
    }
  }
}
