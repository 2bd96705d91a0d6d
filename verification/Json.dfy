/** JSON texts (RFC 8259) as `JSON.parse` reads them and `JSON.stringify` writes them: what an object whose
    members are strings must cost in characters, and that writing and reading undo each other. */
module Json {
  import opened Protocol

  const QUOTE := '\"'
  const BACKSLASH := '\\'

  datatype Value =
    | Str(text: string)
    | Num(digits: string)
    | Word(name: string)
    | Arr(items: seq<Value>)
    | Obj(members: seq<Member>)

  datatype Member = Member(name: string, value: Value)

  /** What has been read, and the text after it. */
  datatype Read<+T> = Read(got: T, rest: string)

  // ------------------------------------------------------------ characters

  predicate Control(c: char) {
    c < ' '
  }

  /** A character that stands for itself inside a string (section 7 of RFC 8259). */
  predicate Plain(c: char) {
    c != QUOTE && c != BACKSLASH && !Control(c)
  }

  predicate Clean(s: string) {
    forall k :: 0 <= k < |s| ==> Plain(s[k])
  }

  /** The fewest characters a string literal spends on this text. */
  function Spent(s: string): (n: nat)
    ensures n >= |s|
    ensures n == |s| <==> Clean(s)
  {
    if s == "" then 0 else
      var n := (if Plain(s[0]) then 1 else 2) + Spent(s[1..]);
      assert s == [s[0]] + s[1..];
      n
  }

  function Hex(c: char): Option<nat> {
    if '0' <= c <= '9' then Some(c as int - '0' as int)
    else if 'a' <= c <= 'f' then Some(c as int - 'a' as int + 10)
    else if 'A' <= c <= 'F' then Some(c as int - 'A' as int + 10)
    else None
  }

  /** The character `\u` and these four digits name; half a surrogate pair is not a character here. */
  function Escaped(t: string): Option<char>
    requires |t| >= 4
  {
    if Hex(t[0]).Some? && Hex(t[1]).Some? && Hex(t[2]).Some? && Hex(t[3]).Some? then
      var n := ((Hex(t[0]).value * 16 + Hex(t[1]).value) * 16 + Hex(t[2]).value) * 16 + Hex(t[3]).value;
      Some(if n < 0xD800 || 0xE000 <= n < 0x10000 then n as char else '\U{FFFD}')
    else None
  }

  function Short(c: char): Option<char> {
    if c == QUOTE || c == BACKSLASH || c == '/' then Some(c)
    else if c == 'b' then Some(8 as char)
    else if c == 'f' then Some(12 as char)
    else if c == 'n' then Some('\n')
    else if c == 'r' then Some('\r')
    else if c == 't' then Some('\t')
    else None
  }

  // ------------------------------------------------------------ reading

  function AfterSpace(t: string): (rest: string)
    ensures |rest| <= |t|
    ensures t == "" || !(t[0] in " \t\n\r") ==> rest == t
  {
    if t != "" && t[0] in " \t\n\r" then AfterSpace(t[1..]) else t
  }

  /** The characters of a string literal after its opening quote. */
  function Chars(t: string): (r: Option<Read<string>>)
    ensures r.Some? ==> |r.value.rest| + Spent(r.value.got) + 1 <= |t|
    decreases |t|
  {
    if t == "" || Control(t[0]) then None
    else if t[0] == QUOTE then Some(Read("", t[1..]))
    else if t[0] != BACKSLASH then Prefixed(t[0], Chars(t[1..]))
    else if |t| >= 6 && t[1] == 'u' then
      var c := Escaped(t[2..6]);
      if c.Some? then Prefixed(c.value, Chars(t[6..])) else None
    else if |t| >= 2 && Short(t[1]).Some? then Prefixed(Short(t[1]).value, Chars(t[2..]))
    else None
  }

  function Prefixed(c: char, r: Option<Read<string>>): (p: Option<Read<string>>)
    ensures p.Some? <==> r.Some?
    ensures p.Some? ==> p.value == Read([c] + r.value.got, r.value.rest)
    ensures p.Some? ==> Spent(p.value.got) == Spent(r.value.got) + if Plain(c) then 1 else 2
  {
    match r
    case None => None
    case Some(Read(s, rest)) =>
      assert ([c] + s)[1..] == s;
      Some(Read([c] + s, rest))
  }

  /** A lower bound on the text of a value. */
  function Cost(v: Value): nat {
    match v
    case Str(text) => 2 + Spent(text)
    case Obj(members) => if members == [] then 2 else 1 + Price(members)
    case _ => 1
  }

  /** What the members of an object cost, with a comma each. */
  function Price(members: seq<Member>): nat {
    if members == [] then 0
    else
      var m := members[|members| - 1];
      Price(members[..|members| - 1]) + 4 + Spent(m.name) + Cost(m.value)
  }

  predicate NumberChar(c: char) {
    '0' <= c <= '9' || c in "+-.eE"
  }

  function NumberText(t: string): (d: string)
    ensures d <= t
  {
    if t != "" && NumberChar(t[0]) then [t[0]] + NumberText(t[1..]) else ""
  }

  function Digits(t: string): (n: nat)
    ensures n <= |t|
  {
    if t != "" && '0' <= t[0] <= '9' then 1 + Digits(t[1..]) else 0
  }

  /** Section 6 of RFC 8259: an integer part without leading zeros, a fraction, an exponent. */
  predicate IsNumber(d: string) {
    IsUnsigned(if d != "" && d[0] == '-' then d[1..] else d)
  }

  predicate IsUnsigned(d: string) {
    var whole := Digits(d);
    whole > 0 && (d[0] == '0' ==> whole == 1) && IsTail(d[whole..])
  }

  predicate IsTail(d: string) {
    if d != "" && d[0] == '.' then
      var part := Digits(d[1..]);
      part > 0 && IsExponent(d[part + 1..])
    else IsExponent(d)
  }

  predicate IsExponent(d: string) {
    d == "" || ((d[0] == 'e' || d[0] == 'E') && IsPower(d[1..]))
  }

  predicate IsPower(d: string) {
    var power := if d != "" && (d[0] == '+' || d[0] == '-') then d[1..] else d;
    power != "" && Digits(power) == |power|
  }

  function OneValue(t: string): (r: Option<Read<Value>>)
    ensures r.Some? ==> |r.value.rest| + Cost(r.value.got) <= |t|
    decreases |t|, 0
  {
    if t == "" then None
    else if t[0] == QUOTE then
      match Chars(t[1..])
      case None => None
      case Some(Read(s, rest)) => Some(Read(Str(s), rest))
    else if t[0] == '{' then
      var u := AfterSpace(t[1..]);
      if u != "" && u[0] == '}' then Some(Read(Obj([]), u[1..]))
      else
        match Members(u, [])
        case None => None
        case Some(Read(ms, rest)) => Some(Read(Obj(ms), rest))
    else if t[0] == '[' then
      var u := AfterSpace(t[1..]);
      if u != "" && u[0] == ']' then Some(Read(Arr([]), u[1..]))
      else
        match Items(u, [])
        case None => None
        case Some(Read(vs, rest)) => Some(Read(Arr(vs), rest))
    else if "true" <= t then Some(Read(Word("true"), t[4..]))
    else if "false" <= t then Some(Read(Word("false"), t[5..]))
    else if "null" <= t then Some(Read(Word("null"), t[4..]))
    else
      var d := NumberText(t);
      if IsNumber(d) then Some(Read(Num(d), t[|d|..])) else None
  }

  /** One member: a name, a colon, a value. */
  function OneMember(t: string): (r: Option<Read<Member>>)
    ensures r.Some? ==> |r.value.rest| + 3 + Spent(r.value.got.name) + Cost(r.value.got.value) <= |t|
    decreases |t|, 1
  {
    if t == "" || t[0] != QUOTE then None
    else
      match Chars(t[1..])
      case None => None
      case Some(Read(name, rest)) =>
        var u := AfterSpace(rest);
        if u == "" || u[0] != ':' then None
        else
          match OneValue(AfterSpace(u[1..]))
          case None => None
          case Some(Read(v, after)) => Some(Read(Member(name, v), after))
  }

  /** The members up to the closing brace, behind those already read. */
  function Members(t: string, before: seq<Member>): (r: Option<Read<seq<Member>>>)
    ensures r.Some? ==> r.value.got != []
    ensures r.Some? ==> |r.value.rest| + Price(r.value.got) <= |t| + Price(before)
    decreases |t|, 2
  {
    match OneMember(t)
    case None => None
    case Some(Read(m, rest)) =>
      var ms := before + [m];
      assert ms[..|ms| - 1] == before;
      var u := AfterSpace(rest);
      if u != "" && u[0] == '}' then Some(Read(ms, u[1..]))
      else if u != "" && u[0] == ',' then Members(AfterSpace(u[1..]), ms)
      else None
  }

  function Items(t: string, before: seq<Value>): (r: Option<Read<seq<Value>>>)
    ensures r.Some? ==> |r.value.rest| < |t|
    decreases |t|, 2
  {
    match OneValue(t)
    case None => None
    case Some(Read(v, rest)) =>
      var u := AfterSpace(rest);
      if u != "" && u[0] == ']' then Some(Read(before + [v], u[1..]))
      else if u != "" && u[0] == ',' then Items(AfterSpace(u[1..]), before + [v])
      else None
  }

  /** `JSON.parse`: one value, and nothing but white space around it. */
  function Parse(t: string): (v: Option<Value>)
    ensures v.Some? ==> Cost(v.value) <= |t|
  {
    match OneValue(AfterSpace(t))
    case None => None
    case Some(Read(v, rest)) => if AfterSpace(rest) == "" then Some(v) else None
  }

  /** A property of the object: of members with the same name the last one counts. */
  function Field(members: seq<Member>, name: string): Option<Value> {
    if members == [] then None
    else if members[|members| - 1].name == name then Some(members[|members| - 1].value)
    else Field(members[..|members| - 1], name)
  }

  // ------------------------------------------------------------ writing

  function HexDigit(n: nat): char
    requires n < 16
  {
    "0123456789abcdef"[n]
  }

  /** The letter a character is written with after a backslash, if it has one. */
  function Shortened(c: char): (d: Option<char>)
    ensures d.Some? ==> Short(d.value) == Some(c)
    ensures d.None? && !Control(c) ==> Plain(c)
  {
    if c == QUOTE || c == BACKSLASH then Some(c)
    else if c == 8 as char then Some('b')
    else if c == 12 as char then Some('f')
    else if c == '\n' then Some('n')
    else if c == '\r' then Some('r')
    else if c == '\t' then Some('t')
    else None
  }

  function Four(c: char): (four: string)
    requires Control(c)
    ensures |four| == 4
  {
    ['0', '0', HexDigit(c as int / 16), HexDigit(c as int % 16)]
  }

  /** How `JSON.stringify` writes a character (section 25.5.2.3 of ECMA-262). */
  function Written(c: char): string {
    match Shortened(c)
    case Some(d) => [BACKSLASH, d]
    case None => if Control(c) then [BACKSLASH, 'u'] + Four(c) else [c]
  }

  function Inside(s: string): string {
    if s == "" then "" else Written(s[0]) + Inside(s[1..])
  }

  function Quoted(s: string): string {
    [QUOTE] + (Inside(s) + [QUOTE])
  }

  function WrittenMembers(members: seq<(string, string)>): string {
    if members == [] then ""
    else
      var head := Quoted(members[0].0) + ([':'] + Quoted(members[0].1));
      if |members| == 1 then head else head + ([','] + WrittenMembers(members[1..]))
  }

  /** `JSON.stringify` of an object whose properties are strings. */
  function Stringify(members: seq<(string, string)>): string {
    ['{'] + (WrittenMembers(members) + ['}'])
  }

  function AsMembers(members: seq<(string, string)>): (ms: seq<Member>)
    ensures |ms| == |members|
  {
    seq(|members|, k requires 0 <= k < |members| => Member(members[k].0, Str(members[k].1)))
  }

  lemma HexBack(n: nat)
    requires n < 16
    ensures Hex(HexDigit(n)) == Some(n)
  {
  }

  lemma PlainBack(c: char, t: string)
    requires Plain(c)
    ensures Chars([c] + t) == Prefixed(c, Chars(t))
  {
    assert ([c] + t)[1..] == t;
  }

  lemma ShortBack(d: char, t: string)
    requires Short(d).Some?
    ensures Chars([BACKSLASH, d] + t) == Prefixed(Short(d).value, Chars(t))
  {
    var u := [BACKSLASH, d] + t;
    assert u[0] == BACKSLASH && u[1] == d && d != 'u';
    assert u[2..] == t;
  }

  lemma HexFour(c: char)
    requires Control(c)
    ensures Escaped(['0', '0', HexDigit(c as int / 16), HexDigit(c as int % 16)]) == Some(c)
  {
    HexBack(c as int / 16);
    HexBack(c as int % 16);
  }

  lemma LongBack(four: string, t: string)
    requires |four| == 4 && Escaped(four).Some?
    ensures Chars([BACKSLASH, 'u'] + (four + t)) == Prefixed(Escaped(four).value, Chars(t))
  {
    var u := [BACKSLASH, 'u'] + (four + t);
    assert u[0] == BACKSLASH && u[1] == 'u';
    assert u[2..6] == four;
    assert u[6..] == t;
  }

  lemma ControlBack(c: char, t: string)
    requires Control(c)
    ensures Chars([BACKSLASH, 'u'] + Four(c) + t) == Prefixed(c, Chars(t))
  {
    HexFour(c);
    LongBack(Four(c), t);
    assert [BACKSLASH, 'u'] + Four(c) + t == [BACKSLASH, 'u'] + (Four(c) + t);
  }

  /** Reading undoes writing, one character. */
  lemma CharBack(c: char, t: string)
    ensures Chars(Written(c) + t) == Prefixed(c, Chars(t))
  {
    match Shortened(c)
    case Some(d) => ShortBack(d, t);
    case None => if Control(c) { ControlBack(c, t); } else { PlainBack(c, t); }
  }

  lemma CharsEnd(t: string)
    ensures Chars([QUOTE] + t) == Some(Read("", t))
  {
    assert ([QUOTE] + t)[1..] == t;
  }

  lemma InsideCons(s: string, t: string)
    requires s != ""
    ensures Inside(s) + t == Written(s[0]) + (Inside(s[1..]) + t)
  {
  }

  lemma {:induction false} CharsBack(s: string, t: string)
    ensures Chars(Inside(s) + t) == PrefixedAll(s, Chars(t))
  {
    if s == "" {
      assert Inside(s) + t == t;
    } else {
      var tail := Inside(s[1..]) + t;
      CharsBack(s[1..], t);
      CharBack(s[0], tail);
      InsideCons(s, t);
    }
  }

  lemma {:induction false} AllPrefixed(s: string, t: string)
    ensures PrefixedAll(s, Some(Read("", t))) == Some(Read(s, t))
  {
    if s == "" {
    } else {
      AllPrefixed(s[1..], t);
      assert [s[0]] + s[1..] == s;
    }
  }

  function PrefixedAll(s: string, r: Option<Read<string>>): Option<Read<string>> {
    if s == "" then r else Prefixed(s[0], PrefixedAll(s[1..], r))
  }

  lemma CharsQuoted(s: string, t: string)
    ensures Chars(Inside(s) + ([QUOTE] + t)) == Some(Read(s, t))
  {
    CharsBack(s, [QUOTE] + t);
    CharsEnd(t);
    AllPrefixed(s, t);
  }

  lemma QuotedSplit(s: string, t: string)
    ensures Quoted(s) + t == [QUOTE] + (Inside(s) + ([QUOTE] + t))
  {
  }

  lemma QuotedBack(s: string, t: string)
    ensures Quoted(s) + t != "" && (Quoted(s) + t)[0] == QUOTE
    ensures Chars((Quoted(s) + t)[1..]) == Some(Read(s, t))
  {
    CharsQuoted(s, t);
    QuotedSplit(s, t);
    var tail := Inside(s) + ([QUOTE] + t);
    assert ([QUOTE] + tail)[1..] == tail;
  }

  lemma NoSpace(t: string)
    requires t != "" && !(t[0] in " \t\n\r")
    ensures AfterSpace(t) == t
  {
  }

  lemma TextBack(text: string, t: string)
    ensures OneValue(Quoted(text) + t) == Some(Read(Str(text), t))
    ensures AfterSpace(Quoted(text) + t) == Quoted(text) + t
  {
    QuotedBack(text, t);
    NoSpace(Quoted(text) + t);
  }

  lemma MemberBack(name: string, text: string, t: string)
    ensures OneMember(Quoted(name) + ([':'] + (Quoted(text) + t))) == Some(Read(Member(name, Str(text)), t))
  {
    var u := [':'] + (Quoted(text) + t);
    QuotedBack(name, u);
    TextBack(text, t);
    NoSpace(u);
    assert u[1..] == Quoted(text) + t;
  }

  lemma LastMember(u: string, before: seq<Member>, m: Member, t: string)
    requires OneMember(u) == Some(Read(m, ['}'] + t))
    ensures Members(u, before) == Some(Read(before + [m], t))
  {
    NoSpace(['}'] + t);
    assert (['}'] + t)[1..] == t;
  }

  lemma NextMember(u: string, before: seq<Member>, m: Member, t: string)
    requires OneMember(u) == Some(Read(m, [','] + t)) && t != "" && t[0] == QUOTE
    ensures Members(u, before) == Members(t, before + [m])
  {
    NoSpace([','] + t);
    NoSpace(t);
    assert ([','] + t)[1..] == t;
  }

  lemma WrittenLast(members: seq<(string, string)>, t: string)
    requires |members| == 1
    ensures WrittenMembers(members) + t == Quoted(members[0].0) + ([':'] + (Quoted(members[0].1) + t))
  {
  }

  lemma WrittenNext(members: seq<(string, string)>, t: string)
    requires |members| > 1
    ensures WrittenMembers(members) + t ==
            Quoted(members[0].0) + ([':'] + (Quoted(members[0].1) + ([','] + (WrittenMembers(members[1..]) + t))))
  {
    Regroup(Quoted(members[0].0), Quoted(members[0].1), WrittenMembers(members[1..]), t);
  }

  lemma Regroup(name: string, text: string, others: string, t: string)
    ensures name + ([':'] + text) + ([','] + others) + t == name + ([':'] + (text + ([','] + (others + t))))
  {
  }

  lemma WrittenStarts(members: seq<(string, string)>, t: string)
    requires members != []
    ensures WrittenMembers(members) + t != "" && (WrittenMembers(members) + t)[0] == QUOTE
  {
  }

  lemma AsMembersCons(members: seq<(string, string)>, before: seq<Member>)
    requires members != []
    ensures before + AsMembers(members) == before + [Member(members[0].0, Str(members[0].1))] + AsMembers(members[1..])
  {
  }

  lemma {:induction false} MembersBack(members: seq<(string, string)>, before: seq<Member>, t: string)
    requires members != []
    ensures Members(WrittenMembers(members) + (['}'] + t), before) == Some(Read(before + AsMembers(members), t))
    decreases |members|
  {
    var name, text := members[0].0, members[0].1;
    var m := Member(name, Str(text));
    AsMembersCons(members, before);
    if |members| == 1 {
      MemberBack(name, text, ['}'] + t);
      WrittenLast(members, ['}'] + t);
      LastMember(WrittenMembers(members) + (['}'] + t), before, m, t);
      assert before + [m] + AsMembers(members[1..]) == before + [m];
    } else {
      var tail := WrittenMembers(members[1..]) + (['}'] + t);
      MemberBack(name, text, [','] + tail);
      WrittenNext(members, ['}'] + t);
      WrittenStarts(members[1..], ['}'] + t);
      NextMember(WrittenMembers(members) + (['}'] + t), before, m, tail);
      MembersBack(members[1..], before + [m], t);
    }
  }

  lemma ObjectRead(u: string, ms: seq<Member>, rest: string)
    requires u != "" && u[0] == QUOTE && Members(u, []) == Some(Read(ms, rest))
    ensures OneValue(['{'] + u) == Some(Read(Obj(ms), rest))
  {
    NoSpace(u);
    assert (['{'] + u)[1..] == u;
  }

  /** `JSON.parse` undoes `JSON.stringify` on objects of strings, whatever their names and texts. */
  lemma ParseStringify(members: seq<(string, string)>)
    ensures Parse(Stringify(members)) == Some(Obj(AsMembers(members)))
  {
    if members == [] {
      EmptyBack();
    } else {
      MembersBack(members, [], "");
      assert ['}'] + "" == ['}'];
      assert [] + AsMembers(members) == AsMembers(members);
      ObjectRead(WrittenMembers(members) + ['}'], AsMembers(members), "");
      NoSpace(Stringify(members));
    }
  }

  lemma EmptyBack()
    ensures Parse(Stringify([])) == Some(Obj([]))
  {
    var t := Stringify([]);
    assert t[1..] == ['}'] && ['}'][1..] == "";
    NoSpace(t);
    NoSpace(['}']);
  }

  lemma MoreIsRefused(t: string, v: Value, rest: string)
    requires AfterSpace(t) == t && OneValue(t) == Some(Read(v, rest)) && AfterSpace(rest) != ""
    ensures Parse(t) == None
  {
  }

  lemma ObjectThen(members: seq<(string, string)>, rest: string)
    requires members != []
    ensures OneValue(['{'] + (WrittenMembers(members) + (['}'] + rest))) == Some(Read(Obj(AsMembers(members)), rest))
  {
    MembersBack(members, [], rest);
    assert [] + AsMembers(members) == AsMembers(members);
    WrittenStarts(members, ['}'] + rest);
    ObjectRead(WrittenMembers(members) + (['}'] + rest), AsMembers(members), rest);
  }

  /** What `JSON.parse` reads is the whole text: nothing but white space may follow the value. */
  lemma NothingMayFollow(members: seq<(string, string)>, c: char, t: string)
    requires members != [] && !(c in " \t\n\r")
    ensures Parse(Stringify(members) + ([c] + t)) == None
  {
    var rest := [c] + t;
    var text := ['{'] + (WrittenMembers(members) + (['}'] + rest));
    ObjectThen(members, rest);
    assert Stringify(members) + rest == text;
    NoSpace(text);
    NoSpace(rest);
    MoreIsRefused(text, Obj(AsMembers(members)), rest);
  }

  // ------------------------------------------------------------ what texts cost

  lemma {:induction false} InsideClean(s: string)
    requires Clean(s)
    ensures Inside(s) == s
  {
    if s == "" {
    } else {
      InsideClean(s[1..]);
      assert Plain(s[0]) && Written(s[0]) == [s[0]];
      assert [s[0]] + s[1..] == s;
    }
  }

  /** The same members pasted between quotes as they are. */
  function PastedMembers(members: seq<(string, string)>): string {
    if members == [] then ""
    else
      var head := Pasted(members[0].0, members[0].1);
      if |members| == 1 then head else head + ([','] + PastedMembers(members[1..]))
  }

  function Pasted(name: string, text: string): string {
    [QUOTE] + (name + [QUOTE]) + ([':'] + ([QUOTE] + (text + [QUOTE])))
  }

  lemma PastedCons(name: string, text: string, others: seq<(string, string)>)
    requires others != []
    ensures PastedMembers([(name, text)] + others) == Pasted(name, text) + ([','] + PastedMembers(others))
  {
    assert ([(name, text)] + others)[1..] == others;
  }

  lemma {:induction false} PastedSnoc(members: seq<(string, string)>, name: string, text: string)
    requires members != []
    ensures PastedMembers(members + [(name, text)]) == PastedMembers(members) + ([','] + Pasted(name, text))
    decreases |members|
  {
    var more := members + [(name, text)];
    if |members| == 1 {
      PastedCons(members[0].0, members[0].1, [(name, text)]);
      assert more == [(members[0].0, members[0].1)] + [(name, text)];
    } else {
      assert more[1..] == members[1..] + [(name, text)];
      PastedSnoc(members[1..], name, text);
    }
  }

  /** Where nothing needs an escape, pasting is what `JSON.stringify` does. */
  lemma {:induction false} WrittenClean(members: seq<(string, string)>)
    requires forall k :: 0 <= k < |members| ==> Clean(members[k].0) && Clean(members[k].1)
    ensures WrittenMembers(members) == PastedMembers(members)
  {
    if members == [] {
    } else {
      InsideClean(members[0].0);
      InsideClean(members[0].1);
      WrittenClean(members[1..]);
    }
  }

  lemma StringifyClean(members: seq<(string, string)>)
    requires forall k :: 0 <= k < |members| ==> Clean(members[k].0) && Clean(members[k].1)
    ensures Stringify(members) == ['{'] + (PastedMembers(members) + ['}'])
  {
    WrittenClean(members);
  }

  predicate NoControls(s: string) {
    forall k :: 0 <= k < |s| ==> !Control(s[k])
  }

  lemma {:induction false} InsideNoControls(s: string)
    ensures NoControls(Inside(s))
  {
    if s == "" {
    } else {
      InsideNoControls(s[1..]);
      assert NoControls(Written(s[0])) by {
        if Shortened(s[0]).None? && Control(s[0]) {
          HexBack(s[0] as int / 16);
          HexBack(s[0] as int % 16);
        }
      }
    }
  }

  lemma PairNoControls(name: string, text: string)
    ensures NoControls(Quoted(name) + ([':'] + Quoted(text)))
  {
    InsideNoControls(name);
    InsideNoControls(text);
  }

  lemma {:induction false} WrittenNoControls(members: seq<(string, string)>)
    ensures NoControls(WrittenMembers(members))
  {
    if members == [] {
    } else {
      PairNoControls(members[0].0, members[0].1);
      WrittenNoControls(members[1..]);
    }
  }

  /** What `JSON.stringify` writes has no raw control character in it, so no newline. */
  lemma StringifyNoControls(members: seq<(string, string)>)
    ensures NoControls(Stringify(members))
  {
    WrittenNoControls(members);
  }

  /** What the member that counts for this name cost. */
  function Paid(members: seq<Member>, name: string): nat {
    match Field(members, name)
    case None => 0
    case Some(v) => 4 + Spent(name) + Cost(v)
  }

  /** Three properties of different names have each been paid for. */
  lemma {:induction false} ThreePaid(members: seq<Member>, a: string, b: string, c: string)
    requires a != b && b != c && a != c
    ensures Paid(members, a) + Paid(members, b) + Paid(members, c) <= Price(members)
  {
    if members == [] {
    } else {
      ThreePaid(members[..|members| - 1], a, b, c);
    }
  }

  lemma OnePaid(members: seq<Member>, name: string, text: string)
    requires Field(members, name) == Some(Str(text))
    ensures members != [] && Paid(members, name) >= 6 + |name| + Spent(text)
  {
  }

  lemma CostOfObject(members: seq<Member>)
    requires members != []
    ensures Cost(Obj(members)) == 1 + Price(members)
  {
  }

  /** An object costs at least what three of its properties that are strings do. */
  lemma ThreeTexts(members: seq<Member>, a: string, b: string, c: string, x: string, y: string, z: string)
    requires a != b && b != c && a != c
    requires Field(members, a) == Some(Str(x)) && Field(members, b) == Some(Str(y)) && Field(members, c) == Some(Str(z))
    ensures Cost(Obj(members)) >= 19 + |a| + |b| + |c| + Spent(x) + Spent(y) + Spent(z)
  {
    ThreePaid(members, a, b, c);
    OnePaid(members, a, x);
    OnePaid(members, b, y);
    OnePaid(members, c, z);
    CostOfObject(members);
  }
}
