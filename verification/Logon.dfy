/** The logon line on its way from src/gateway.c, which pastes the credentials between quotes as they are,
    to server.js, which reads the line as JSON. */
module Logon {
  import opened Protocol
  import opened Json
  import G = Gateway
  import T = Text

  /** The credentials `handleNew` takes from a line, if it is a logon. */
  function LogonIn(line: string): Option<(string, string)> {
    match Parse(line)
    case Some(Obj(ms)) =>
      var user, pass := Field(ms, "username"), Field(ms, "password");
      if && Field(ms, "type") == Some(Str("auth"))
         && user.Some? && user.value.Str? && user.value.text != ""
         && pass.Some? && pass.value.Str? && pass.value.text != ""
      then Some((user.value.text, pass.value.text)) else None
    case _ => None
  }

  /** The properties of a logon. */
  function LogonTexts(user: string, pass: string): seq<(string, string)> {
    [("type", "auth"), ("username", user), ("password", pass)]
  }

  lemma Glue(a: string, b: string, c: string, d: string, e: string)
    ensures a + ((b + ([','] + (c + ([','] + d)))) + e) == (a + b + [',']) + c + [','] + d + e
  {
  }

  lemma Reglue(h: string, a: string, x: string, q: string, m: string, b: string, y: string, t: string)
    ensures h + (a + x + q) + m + (b + y + q) + t == (h + a) + x + (q + m + b) + y + (q + t)
  {
  }

  /** A member up to its text. */
  function Opening(name: string): string {
    [QUOTE] + (name + [QUOTE]) + [':', QUOTE]
  }

  lemma PastedOpening(name: string, text: string)
    ensures Pasted(name, text) == Opening(name) + text + [QUOTE]
  {
  }

  lemma PartsOfLogon()
    ensures G.PART1 == ['{'] + Pasted("type", "auth") + [','] + Opening("username")
    ensures G.PART2 == [QUOTE] + [','] + Opening("password")
    ensures G.PART3 == [QUOTE] + ['}']
  {
  }

  lemma NamesClean()
    ensures Clean("type") && Clean("auth") && Clean("username") && Clean("password")
  {
  }

  /** Without quotes, backslashes and control characters in them, pasting credentials is stringifying them. */
  lemma CredentialsAreJson(user: string, pass: string)
    requires Clean(user) && Clean(pass)
    ensures G.Credentials(user, pass) == Stringify(LogonTexts(user, pass))
  {
    NamesClean();
    StringifyClean(LogonTexts(user, pass));
    PastedLogon(user, pass);
  }

  lemma PastedLogon(user: string, pass: string)
    ensures G.Credentials(user, pass) == ['{'] + (PastedMembers(LogonTexts(user, pass)) + ['}'])
  {
    var a, b, c := Pasted("type", "auth"), Pasted("username", user), Pasted("password", pass);
    assert LogonTexts(user, pass) == [("type", "auth")] + ([("username", user)] + [("password", pass)]);
    PastedCons("type", "auth", [("username", user)] + [("password", pass)]);
    PastedCons("username", user, [("password", pass)]);
    Glue(['{'], a, b, c, ['}']);
    PastedOpening("username", user);
    PastedOpening("password", pass);
    PartsOfLogon();
    Reglue(['{'] + a + [','], Opening("username"), user, [QUOTE], [','], Opening("password"), pass, ['}']);
  }

  /** The cost of the text of a logon: exactly what `getkey` spends on it, if nothing needs an escape. */
  lemma LogonCost(line: string, user: string, pass: string)
    requires LogonIn(line) == Some((user, pass))
    ensures |G.Credentials("", "")| + Spent(user) + Spent(pass) <= |line|
  {
    var ms := Parse(line).value.members;
    ThreeTexts(ms, "type", "username", "password", "auth", user, pass);
  }

  /** The server reads the credentials the user typed if and only if neither has a quote, a backslash or a
      control character in it: an escape or a further member would make the line longer than it is. */
  lemma LogonReadBack(user: string, pass: string)
    requires user != "" && pass != ""
    ensures LogonIn(G.Credentials(user, pass)) == Some((user, pass)) <==> Clean(user) && Clean(pass)
  {
    if LogonIn(G.Credentials(user, pass)) == Some((user, pass)) {
      LogonCost(G.Credentials(user, pass), user, pass);
      assert |G.Credentials(user, pass)| == |G.Credentials("", "")| + |user| + |pass|;
    }
    if Clean(user) && Clean(pass) {
      CredentialsAreJson(user, pass);
      TextsOfThree(user, pass);
      LogonOfWritten(LogonTexts(user, pass), user, pass);
    }
  }

  /** A property of an object that was written from these strings. */
  function TextOf(ms: seq<(string, string)>, name: string): Option<string> {
    if ms == [] then None
    else if ms[|ms| - 1].0 == name then Some(ms[|ms| - 1].1)
    else TextOf(ms[..|ms| - 1], name)
  }

  lemma {:induction false} FieldOfText(ms: seq<(string, string)>, name: string)
    ensures Field(AsMembers(ms), name) == match TextOf(ms, name) case None => None case Some(text) => Some(Str(text))
  {
    if ms == [] {
    } else {
      FieldOfText(ms[..|ms| - 1], name);
      assert AsMembers(ms)[..|ms| - 1] == AsMembers(ms[..|ms| - 1]);
    }
  }

  lemma LogonOfWritten(ms: seq<(string, string)>, user: string, pass: string)
    requires ms != [] && user != "" && pass != ""
    requires TextOf(ms, "type") == Some("auth") && TextOf(ms, "username") == Some(user) && TextOf(ms, "password") == Some(pass)
    ensures LogonIn(Stringify(ms)) == Some((user, pass))
  {
    ParseStringify(ms);
    FieldOfText(ms, "type");
    FieldOfText(ms, "username");
    FieldOfText(ms, "password");
  }

  lemma TextOfLast(ms: seq<(string, string)>, name: string, text: string)
    ensures TextOf(ms + [(name, text)], name) == Some(text)
    ensures forall other :: other != name ==> TextOf(ms + [(name, text)], other) == TextOf(ms, other)
  {
    assert (ms + [(name, text)])[..|ms|] == ms;
  }

  lemma TextsOfThree(user: string, pass: string)
    ensures
      var ms := LogonTexts(user, pass);
      TextOf(ms, "type") == Some("auth") && TextOf(ms, "username") == Some(user) && TextOf(ms, "password") == Some(pass)
  {
    assert "username"[0] != "password"[0];
    TextOfLast([], "type", "auth");
    TextOfLast([("type", "auth")], "username", user);
    TextOfLast([("type", "auth"), ("username", user)], "password", pass);
    assert [] + [("type", "auth")] == [("type", "auth")];
    assert [("type", "auth")] + [("username", user)] == [("type", "auth"), ("username", user)];
    assert [("type", "auth"), ("username", user)] + [("password", pass)] == LogonTexts(user, pass);
  }

  const SPLICE := "\",\"username\":\""

  /** Otherwise the line may be a logon of somebody else: of two members with one name the later counts. */
  lemma LogonMisread(user: string, pass: string, other: string)
    requires Clean(user) && Clean(pass) && Clean(other) && pass != "" && other != ""
    ensures LogonIn(G.Credentials(user, pass + SPLICE + other)) == Some((other, pass))
  {
    var ms := LogonTexts(user, pass) + [("username", other)];
    SplicedIsJson(user, pass, other);
    TextsOfThree(user, pass);
    assert ms[..3] == LogonTexts(user, pass);
    LogonOfWritten(ms, other, pass);
  }

  lemma SplicedTexts(user: string, pass: string, other: string)
    requires Clean(user) && Clean(pass) && Clean(other)
    ensures Stringify(LogonTexts(user, pass) + [("username", other)]) ==
            ['{'] + (PastedMembers(LogonTexts(user, pass)) + ([','] + Pasted("username", other)) + ['}'])
  {
    NamesClean();
    StringifyClean(LogonTexts(user, pass) + [("username", other)]);
    PastedSnoc(LogonTexts(user, pass), "username", other);
  }

  lemma SpliceIsMember()
    ensures SPLICE == [QUOTE] + [','] + Opening("username")
  {
  }

  lemma CredentialsEnd(user: string, pass: string)
    ensures G.Credentials(user, pass) == G.PART1 + user + G.PART2 + pass + ([QUOTE] + ['}'])
  {
    PartsOfLogon();
  }

  lemma SplicedIsJson(user: string, pass: string, other: string)
    requires Clean(user) && Clean(pass) && Clean(other)
    ensures G.Credentials(user, pass + SPLICE + other) == Stringify(LogonTexts(user, pass) + [("username", other)])
  {
    SplicedTexts(user, pass, other);
    PastedLogon(user, pass);
    PastedOpening("username", other);
    CredentialsEnd(user, pass);
    CredentialsEnd(user, pass + SPLICE + other);
    SpliceIsMember();
    Unglue(G.PART1 + user + G.PART2, pass, [QUOTE], ['}'], PastedMembers(LogonTexts(user, pass)),
           [','], Opening("username"), other);
  }

  lemma SameHead(h: string, pass: string, q: string, t: string, ms: string)
    requires h + pass + (q + t) == ['{'] + (ms + t)
    ensures h + pass + q == ['{'] + ms
  {
    T.Assoc(h + pass, q, t);
    T.Assoc(['{'], ms, t);
    assert ((h + pass + q) + t)[..|h + pass + q|] == h + pass + q;
    assert ((['{'] + ms) + t)[..|['{'] + ms|] == ['{'] + ms;
  }

  lemma Retail(h: string, pass: string, q: string, t: string, m: string, b: string, other: string)
    ensures h + (pass + (q + m + b) + other) + (q + t) == (h + pass + q) + (m + (b + other + q) + t)
  {
  }

  /** A text that ends in a quote and a brace, with one more member put in before the brace. */
  lemma Unglue(h: string, pass: string, q: string, t: string, ms: string, m: string, b: string, other: string)
    requires h + pass + (q + t) == ['{'] + (ms + t)
    ensures h + (pass + (q + m + b) + other) + (q + t) == ['{'] + (ms + (m + (b + other + q)) + t)
  {
    SameHead(h, pass, q, t, ms);
    Retail(h, pass, q, t, m, b, other);
    var more := m + (b + other + q);
    T.Assoc(['{'], ms, more + t);
    T.Assoc(ms, more, t);
  }

  /** One that the gateway lets through: with this password, alice asks for bob's logon. */
  lemma AliceAsksForBob()
    ensures G.AcceptableLogin("alice", "p" + SPLICE + "bob")
    ensures LogonIn(G.Credentials("alice", "p" + SPLICE + "bob")) == Some(("bob", "p"))
  {
    LogonMisread("alice", "p", "bob");
  }

  /** The request is handled as the one line it is if and only if no credential has a newline in it. */
  lemma CredentialsInOneLine(user: string, pass: string)
    ensures T.Received(G.Credentials(user, pass)) == [G.Credentials(user, pass)] <==>
            T.NEWLINE !in user && T.NEWLINE !in pass
  {
    var line := G.Credentials(user, pass);
    assert T.NEWLINE in line <==> T.NEWLINE in user || T.NEWLINE in pass;
    T.WholeLine(line);
  }

  /** Both layers at once, for any messages with string properties: what `send` writes for them
      is received as lines that parse to exactly those messages. */
  lemma {:induction false} MessagesRoundTrip(messages: seq<seq<(string, string)>>)
    ensures T.Received(T.Sent(Texts(messages))) == Texts(messages)
    ensures forall k :: 0 <= k < |messages| ==> Parse(Texts(messages)[k]) == Some(Obj(AsMembers(messages[k])))
  {
    forall k | 0 <= k < |messages|
      ensures T.Frameable(Texts(messages)[k]) && Parse(Texts(messages)[k]) == Some(Obj(AsMembers(messages[k])))
    {
      StringifyNoControls(messages[k]);
      assert Control(T.NEWLINE);
      ParseStringify(messages[k]);
    }
    T.FramingRoundTrip(Texts(messages));
  }

  function Texts(messages: seq<seq<(string, string)>>): (texts: seq<string>)
    ensures |texts| == |messages|
    ensures forall k :: 0 <= k < |messages| ==> texts[k] == Stringify(messages[k])
  {
    seq(|messages|, k requires 0 <= k < |messages| => Stringify(messages[k]))
  }
}
