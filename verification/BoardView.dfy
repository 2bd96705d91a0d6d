/** client/boards.js: the board listing on screen. */
module BoardView {
  import opened Protocol
  import opened Decimal
  import B = Board

  const SECOND := 1000
  const MINUTE := 60 * SECOND
  const HOUR := 60 * MINUTE
  const DAY := 24 * HOUR

  datatype Colour = Expired | Red | Cyan | Blue | Green

  /** The colour bands, as instants of remaining time. */
  function ColourOf(ms: int): Colour {
    if ms <= 0 then Expired
    else if ms < HOUR then Red
    else if ms < 2 * DAY then Cyan
    else if ms < 5 * DAY then Blue
    else Green
  }

  /** Most urgent first. */
  function Urgency(c: Colour): nat {
    match c case Expired => 0 case Red => 1 case Cyan => 2 case Blue => 3 case Green => 4
  }

  function Seconds(ms: nat): nat { ms / SECOND % 60 }
  function Minutes(ms: nat): nat { ms / MINUTE % 60 }
  function Hours(ms: nat): nat { ms / HOUR % 24 }
  function Days(ms: nat): nat { ms / DAY }

  datatype Unit = D | H | M | S

  function Millis(u: Unit): nat {
    match u case D => DAY case H => HOUR case M => MINUTE case S => SECOND
  }

  function Letter(u: Unit): string {
    match u case D => "d" case H => "h" case M => "m" case S => "s"
  }

  function Tag(c: Colour): string {
    match c case Expired => "red" case Red => "red" case Cyan => "cyan" case Blue => "blue" case Green => "green"
  }

  /** What a label shows: nothing left, or a number of units and a number of the next smaller ones. */
  datatype Shown = Over | Left(colour: Colour, big: nat, unit: Unit, small: nat, rest: Unit)

  function ShownFor(ms: int): Shown {
    if ms <= 0 then Over
    else if ms >= DAY then Left(ColourOf(ms), Days(ms), D, Hours(ms), H)
    else if ms >= HOUR then Left(Cyan, Hours(ms), H, Minutes(ms), M)
    else Left(Red, Minutes(ms), M, Seconds(ms), S)
  }

  function Tagged(tag: string, big: nat, unit: string, small: nat, rest: string): string {
    "{" + tag + "-fg}TTL: " + Dec(big) + unit + " " + Dec(small) + rest + "{/" + tag + "-fg}"
  }

  const EXPIRED := "{red-bg}" + "{white-fg}" + "TTL: EXPIRED" + "{/white-fg}" + "{/red-bg}"

  function Render(s: Shown): string {
    match s
    case Over => EXPIRED
    case Left(colour, big, unit, small, rest) => Tagged(Tag(colour), big, Letter(unit), small, Letter(rest))
  }

  function Label(ms: int): string {
    Render(ShownFor(ms))
  }

  method FormatRemainingTime(ms: int) returns (text: string)
    ensures text == Label(ms)
  {
    if ms <= 0 {
      return "{red-bg}" + "{white-fg}" + "TTL: EXPIRED" + "{/white-fg}" + "{/red-bg}";
    }
    var x := ms / 1000;
    var seconds := x % 60;
    x := x / 60;
    var minutes := x % 60;
    x := x / 60;
    var hours := x % 24;
    x := x / 24;
    var days := x;
    NestedFloors(ms);
    UnitBands(ms);
    if days > 0 {
      var color := "green";
      if days < 5 {
        color := "blue";
      }
      if days == 1 {
        color := "cyan";
      }
      return Tagged(color, days, "d", hours, "h");
    }
    if hours > 0 {
      return Tagged("cyan", hours, "h", minutes, "m");
    }
    return Tagged("red", minutes, "m", seconds, "s");
  }

  lemma NestedFloors(ms: nat)
    ensures ms / 1000 / 60 == ms / MINUTE
    ensures ms / 1000 / 60 / 60 == ms / HOUR
    ensures ms / 1000 / 60 / 60 / 24 == ms / DAY
  {
  }

  lemma UnitBands(ms: nat)
    ensures ms / DAY == 0 <==> ms < DAY
    ensures ms / DAY == 1 <==> DAY <= ms < 2 * DAY
    ensures ms / DAY < 5 <==> ms < 5 * DAY
    ensures ms < DAY ==> (ms / HOUR % 24 == 0 <==> ms < HOUR)
  {
  }

  /** The four fields write down the whole number of seconds left, each in its range. */
  lemma Decomposition(ms: nat)
    ensures ms / SECOND == ((Days(ms) * 24 + Hours(ms)) * 60 + Minutes(ms)) * 60 + Seconds(ms)
    ensures Hours(ms) < 24 && Minutes(ms) < 60 && Seconds(ms) < 60
  {
    NestedFloors(ms);
  }

  lemma DayLabel(ms: nat)
    ensures ms - (Days(ms) * DAY + Hours(ms) * HOUR) == ms % HOUR
  {
    assert ms / DAY == ms / HOUR / 24;
  }

  lemma HourLabel(ms: nat)
    requires ms < DAY
    ensures ms - (Hours(ms) * HOUR + Minutes(ms) * MINUTE) == ms % MINUTE
  {
    assert ms / HOUR == ms / MINUTE / 60;
    assert Hours(ms) == ms / HOUR;
  }

  lemma MinuteLabel(ms: nat)
    requires ms < HOUR
    ensures ms - (Minutes(ms) * MINUTE + Seconds(ms) * SECOND) == ms % SECOND
  {
    assert ms / MINUTE == ms / SECOND / 60;
    assert Minutes(ms) == ms / MINUTE;
  }

  /** What a label shows is the true remaining time rounded down to the smaller of its two units, the number
      of smaller units stays below one bigger unit, and the colour is that of the time's band. */
  lemma LabelUnderestimates(ms: int)
    ensures ShownFor(ms).Over? <==> ms <= 0
    ensures ms > 0 ==>
      var s := ShownFor(ms);
      && s.colour == ColourOf(ms)
      && 0 <= ms - (s.big * Millis(s.unit) + s.small * Millis(s.rest)) < Millis(s.rest)
      && s.small * Millis(s.rest) < Millis(s.unit)
      && (s.big > 0 || s.unit.M?)
  {
    if ms >= DAY {
      DayLabel(ms);
    } else if ms >= HOUR {
      HourLabel(ms);
    } else if ms > 0 {
      MinuteLabel(ms);
    }
  }

  // ------------------------------------------------------------ reading a label back

  /** The text up to the first such character, or all of it. */
  function Until(s: string, c: char): (head: string)
    ensures head <= s
  {
    if s == "" || s[0] == c then "" else [s[0]] + Until(s[1..], c)
  }

  /** A number and the letter behind it. */
  datatype Count = Count(number: nat, unit: char, rest: string)

  function ReadCount(s: string): Option<Count> {
    var d := Digits(s);
    if d != "" && |d| < |s| then Some(Count(Value(d), s[|d|], s[|d| + 1..])) else None
  }

  /** What a reader sees: a colour, and two numbers with their units. */
  datatype Sight = Sight(colour: string, big: nat, unit: char, small: nat, rest: char)

  const FG := "-fg}TTL: "

  function Opening(tag: string): string {
    ['{'] + (tag + FG)
  }

  function Closing(tag: string): string {
    "{/" + tag + "-fg}"
  }

  function ReadLabel(s: string): Option<Sight> {
    if s == "" || s[0] != '{' then None
    else
      var tag := Until(s[1..], '-');
      if Opening(tag) <= s then ReadCounts(s[|Opening(tag)|..], tag) else None
  }

  function ReadCounts(s: string, tag: string): Option<Sight> {
    match ReadCount(s)
    case None => None
    case Some(Count(big, unit, t)) =>
      if t == "" || t[0] != ' ' then None
      else
        match ReadCount(t[1..])
        case None => None
        case Some(Count(small, rest, end)) => if end == Closing(tag) then Some(Sight(tag, big, unit, small, rest)) else None
  }

  lemma CountReads(n: nat, unit: char, t: string)
    requires !IsDigit(unit)
    ensures ReadCount(Dec(n) + ([unit] + t)) == Some(Count(n, unit, t))
  {
    DecRoundTrip(n);
    DigitsOf(Dec(n), [unit] + t);
    var s := Dec(n) + ([unit] + t);
    assert s[|Dec(n)|] == unit && s[|Dec(n)| + 1..] == t;
  }

  lemma {:induction false} UntilReads(tag: string, c: char, t: string)
    requires c !in tag
    ensures Until(tag + ([c] + t), c) == tag
  {
    var s := tag + ([c] + t);
    if tag == "" {
      assert s == [c] + t;
    } else {
      assert s[0] == tag[0] && s[1..] == tag[1..] + ([c] + t);
      UntilReads(tag[1..], c, t);
    }
  }

  /** The two counts and the closing tag of a label. */
  function Counts(tag: string, big: nat, unit: char, small: nat, rest: char): string {
    Dec(big) + ([unit] + ([' '] + (Dec(small) + ([rest] + Closing(tag)))))
  }

  lemma Retag(tag: string, a: string, unit: char, b: string, rest: char)
    ensures "{" + tag + "-fg}TTL: " + a + [unit] + " " + b + [rest] + "{/" + tag + "-fg}" ==
            Opening(tag) + (a + ([unit] + ([' '] + (b + ([rest] + Closing(tag))))))
  {
  }

  lemma CountsRead(tag: string, big: nat, unit: char, small: nat, rest: char)
    requires !IsDigit(unit) && !IsDigit(rest)
    ensures ReadCounts(Counts(tag, big, unit, small, rest), tag) == Some(Sight(tag, big, unit, small, rest))
  {
    var second := Dec(small) + ([rest] + Closing(tag));
    CountReads(big, unit, [' '] + second);
    CountReads(small, rest, Closing(tag));
    assert ([' '] + second)[1..] == second;
  }

  lemma OpeningReads(tag: string, t: string)
    requires '-' !in tag
    ensures Opening(tag) + t != "" && (Opening(tag) + t)[0] == '{' && Until((Opening(tag) + t)[1..], '-') == tag
    ensures (Opening(tag) + t)[|Opening(tag)|..] == t
  {
    var fg := FG[1..];
    assert FG == ['-'] + fg;
    UntilReads(tag, '-', fg + t);
    assert (Opening(tag) + t)[1..] == tag + (['-'] + (fg + t));
  }

  lemma TaggedReads(tag: string, big: nat, unit: char, small: nat, rest: char)
    requires '-' !in tag && !IsDigit(unit) && !IsDigit(rest)
    ensures ReadLabel(Tagged(tag, big, [unit], small, [rest])) == Some(Sight(tag, big, unit, small, rest))
  {
    Retag(tag, Dec(big), unit, Dec(small), rest);
    OpeningReads(tag, Counts(tag, big, unit, small, rest));
    CountsRead(tag, big, unit, small, rest);
  }

  lemma TagsAreWords()
    ensures '-' !in "red" && '-' !in "cyan" && '-' !in "blue" && '-' !in "green"
    ensures '\t' !in "red" && '\t' !in "cyan" && '\t' !in "blue" && '\t' !in "green"
  {
  }

  lemma ExpiredLooks()
    ensures |EXPIRED| > 6 && EXPIRED[5] == 'b' && EXPIRED[6] == 'g' && '\t' !in EXPIRED
  {
    var a, b, c, d, e := "{red-bg}", "{white-fg}", "TTL: EXPIRED", "{/white-fg}", "{/red-bg}";
    assert '\t' !in a && '\t' !in b && '\t' !in c && '\t' !in d && '\t' !in e;
    assert a[5] == 'b' && a[6] == 'g';
    assert EXPIRED == a + b + c + d + e;
  }

  lemma TaggedHead(tag: string, big: nat, unit: string, small: nat, rest: string)
    ensures
      var s := Tagged(tag, big, unit, small, rest);
      |s| > |tag| + 2 && s[|tag| + 1] == '-' && s[|tag| + 2] == 'f'
  {
  }

  lemma LeftIsNotExpired(s: Shown)
    requires s.Left?
    ensures Render(s) != EXPIRED
  {
    ExpiredLooks();
    TaggedHead(Tag(s.colour), s.big, Letter(s.unit), s.small, Letter(s.rest));
    assert |Tag(s.colour)| == 3 || |Tag(s.colour)| == 4 || |Tag(s.colour)| == 5;
  }

  lemma ShownReads(s: Shown)
    requires s.Left?
    ensures ReadLabel(Render(s)) == Some(Sight(Tag(s.colour), s.big, UnitChar(s.unit), s.small, UnitChar(s.rest)))
  {
    TagsAreWords();
    TaggedReads(Tag(s.colour), s.big, UnitChar(s.unit), s.small, UnitChar(s.rest));
  }

  lemma MinutesRead(ms: int)
    requires 0 < ms < 3600000
    ensures ReadLabel(Label(ms)) == Some(Sight("red", ms / 60000, 'm', ms / 1000 % 60, 's'))
  {
    SmallParts(ms);
    ShownReads(ShownFor(ms));
  }

  lemma HoursRead(ms: int)
    requires 3600000 <= ms < 86400000
    ensures ReadLabel(Label(ms)) == Some(Sight("cyan", ms / 3600000, 'h', ms / 60000 % 60, 'm'))
  {
    SmallParts(ms);
    ShownReads(ShownFor(ms));
  }

  lemma DaysRead(ms: int)
    requires 86400000 <= ms
    ensures ReadLabel(Label(ms)) ==
      Some(Sight(if ms < 172800000 then "cyan" else if ms < 432000000 then "blue" else "green",
                 ms / 86400000, 'd', ms / 3600000 % 24, 'h'))
  {
    ShownReads(ShownFor(ms));
  }

  /** The printed label, exactly: EXPIRED when nothing is left; otherwise days and hours, or hours and minutes, or
      minutes and seconds, in that order, each rounded down, in the colour of the time's band. */
  lemma LabelReads(ms: int)
    ensures ms <= 0 <==> Label(ms) == EXPIRED
    ensures 0 < ms < 3600000 ==> ReadLabel(Label(ms)) == Some(Sight("red", ms / 60000, 'm', ms / 1000 % 60, 's'))
    ensures 3600000 <= ms < 86400000 ==> ReadLabel(Label(ms)) == Some(Sight("cyan", ms / 3600000, 'h', ms / 60000 % 60, 'm'))
    ensures 86400000 <= ms ==>
      ReadLabel(Label(ms)) ==
        Some(Sight(if ms < 172800000 then "cyan" else if ms < 432000000 then "blue" else "green",
                   ms / 86400000, 'd', ms / 3600000 % 24, 'h'))
  {
    if ms > 0 {
      LeftIsNotExpired(ShownFor(ms));
    }
    if 0 < ms < 3600000 {
      MinutesRead(ms);
    } else if 3600000 <= ms < 86400000 {
      HoursRead(ms);
    } else if 86400000 <= ms {
      DaysRead(ms);
    }
  }

  function UnitChar(u: Unit): (c: char)
    ensures [c] == Letter(u) && !IsDigit(c)
  {
    match u case D => 'd' case H => 'h' case M => 'm' case S => 's'
  }

  lemma SmallParts(ms: nat)
    ensures ms < 86400000 ==> ms / 3600000 % 24 == ms / 3600000
    ensures ms < 3600000 ==> ms / 60000 % 60 == ms / 60000
  {
  }

  lemma UrgencyMonotone(a: int, b: int)
    requires a <= b
    ensures Urgency(ColourOf(a)) <= Urgency(ColourOf(b))
  {
  }

  // ------------------------------------------------------------ the list

  function AfterId(left: string, title: string): (text: string)
    ensures text != "" && text[0] == '\t'
  {
    "\t" + left + "\t\t\t{bold}" + title + "{/bold}"
  }

  function RowText(id: nat, left: string, title: string): string {
    "#" + (Dec(id) + AfterId(left, title))
  }

  function Row(t: Thread, clock: int): string
    requires t.id >= 0
  {
    RowText(t.id, Label(B.Remaining(t, clock)), t.title)
  }

  function Rows(threads: seq<Thread>, clocks: seq<int>): (rows: seq<string>)
    requires |clocks| == |threads| && forall k :: 0 <= k < |threads| ==> threads[k].id >= 0
    ensures |rows| == |threads|
  {
    if threads == [] then []
    else
      var n := |threads| - 1;
      Rows(threads[..n], clocks[..n]) + [Row(threads[n], clocks[n])]
  }

  lemma RowsSnoc(threads: seq<Thread>, clocks: seq<int>, i: nat)
    requires |clocks| == |threads| && (forall k :: 0 <= k < |threads| ==> threads[k].id >= 0) && i < |threads|
    ensures Rows(threads[..i + 1], clocks[..i + 1]) == Rows(threads[..i], clocks[..i]) + [Row(threads[i], clocks[i])]
  {
    assert threads[..i + 1][..i] == threads[..i] && clocks[..i + 1][..i] == clocks[..i];
  }

  method FormatRow(thread: Thread, clock: int) returns (row: string)
    requires thread.id >= 0
    ensures row == Row(thread, clock)
  {
    var timeRemaining := thread.ttl - (clock - thread.created);
    var shown := FormatRemainingTime(timeRemaining);
    row := RowText(thread.id, shown, thread.title);
  }

  /** `setThreads`: the clock is read anew for each row. */
  method SetThreads(threads: seq<Thread>, clocks: seq<int>) returns (topics: seq<string>)
    requires |clocks| == |threads| && forall k :: 0 <= k < |threads| ==> threads[k].id >= 0
    ensures topics == Rows(threads, clocks)
  {
    topics := [];
    for i := 0 to |threads|
      invariant topics == Rows(threads[..i], clocks[..i])
    {
      RowsSnoc(threads, clocks, i);
      var row := FormatRow(threads[i], clocks[i]);
      topics := topics + [row];
    }
    assert threads[..|threads|] == threads && clocks[..|threads|] == clocks;
  }

  /** The longest run of digits a text starts with. */
  function Digits(s: string): (d: string)
    ensures d <= s && forall k :: 0 <= k < |d| ==> IsDigit(d[k])
  {
    if s != "" && IsDigit(s[0]) then [s[0]] + Digits(s[1..]) else ""
  }

  /** Selecting a row matches `#`, digits and a tab, and reads the number back. */
  function SelectedId(row: string): Option<nat> {
    if row == "" || row[0] != '#' then None
    else
      var d := Digits(row[1..]);
      if d != "" && |d| + 1 < |row| && row[|d| + 1] == '\t' then Some(Value(d)) else None
  }

  lemma {:induction false} DigitsOf(d: string, rest: string)
    requires forall k :: 0 <= k < |d| ==> IsDigit(d[k])
    requires rest != "" && !IsDigit(rest[0])
    ensures Digits(d + rest) == d
  {
    if d == "" {
      assert d + rest == rest;
    } else {
      assert (d + rest)[1..] == d[1..] + rest;
      DigitsOf(d[1..], rest);
    }
  }

  /** Whatever its title and remaining time, choosing a thread's row asks for that thread. */
  lemma RowRoundTrip(t: Thread, clock: int)
    requires t.id >= 0
    ensures SelectedId(Row(t, clock)) == Some(t.id)
  {
    RowTextRoundTrip(t.id, Label(B.Remaining(t, clock)), t.title);
  }

  lemma RowTextRoundTrip(id: nat, left: string, title: string)
    ensures SelectedId(RowText(id, left, title)) == Some(id)
  {
    DecRoundTrip(id);
    SelectionReads(Dec(id), AfterId(left, title));
  }

  lemma SelectionReads(d: string, rest: string)
    requires d != "" && forall k :: 0 <= k < |d| ==> IsDigit(d[k])
    requires rest != "" && rest[0] == '\t'
    ensures SelectedId("#" + (d + rest)) == Some(Value(d))
  {
    var row := "#" + (d + rest);
    assert row[0] == '#';
    assert row[1..] == d + rest;
    DigitsOf(d, rest);
    assert Digits(row[1..]) == d;
    assert |d| + 1 < |row| && row[|d| + 1] == '\t';
  }

  const BOLD := "\t\t\t{bold}"
  const UNBOLD := "{/bold}"

  /** What a reader sees behind the first tab of a row: a label up to the next tab, and a title between tags. */
  function ReadRest(t: string): Option<(string, string)> {
    var left := Until(t, '\t');
    var head := left + BOLD;
    if |head| + |UNBOLD| <= |t| && head <= t && t[|t| - |UNBOLD|..] == UNBOLD
    then Some((left, t[|head|..|t| - |UNBOLD|])) else None
  }

  /** What a reader sees at the head of a row, behind its first character: an id, and what is behind the first tab. */
  function ReadHead(u: string): Option<(nat, string)> {
    var d := Digits(u);
    if d != "" && |d| < |u| && u[|d|] == '\t' then Some((Value(d), u[|d| + 1..])) else None
  }

  function ReadRow(row: string): Option<(nat, string, string)> {
    if row == "" || row[0] != '#' then None
    else
      match ReadHead(row[1..])
      case None => None
      case Some((id, t)) =>
        match ReadRest(t)
        case None => None
        case Some((left, title)) => Some((id, left, title))
  }

  lemma RestReads(left: string, title: string)
    requires '\t' !in left
    ensures ReadRest(left + BOLD + title + UNBOLD) == Some((left, title))
  {
    var t, head := left + BOLD + title + UNBOLD, left + BOLD;
    var bold := BOLD[1..];
    assert BOLD == ['\t'] + bold;
    UntilReads(left, '\t', bold + title + UNBOLD);
    assert t == left + (['\t'] + (bold + title + UNBOLD));
    assert t[|t| - |UNBOLD|..] == UNBOLD && head <= t && t[|head|..|t| - |UNBOLD|] == title;
  }

  lemma HeadReads(d: string, t: string)
    requires d != "" && forall k :: 0 <= k < |d| ==> IsDigit(d[k])
    ensures ReadHead(d + (['\t'] + t)) == Some((Value(d), t))
  {
    var rest := ['\t'] + t;
    DigitsOf(d, rest);
    assert (d + rest)[|d|] == '\t' && (d + rest)[|d| + 1..] == t;
  }

  lemma RowParts(id: nat, left: string, title: string)
    requires '\t' !in left
    ensures ReadRow(RowText(id, left, title)) == Some((id, left, title))
  {
    DecRoundTrip(id);
    var t := left + BOLD + title + UNBOLD;
    assert AfterId(left, title) == ['\t'] + t;
    HeadReads(Dec(id), t);
    RestReads(left, title);
    assert RowText(id, left, title)[1..] == Dec(id) + AfterId(left, title);
  }

  lemma {:induction false} DecHasNoTab(n: nat)
    ensures '\t' !in Dec(n)
  {
    DecRoundTrip(n);
    assert !IsDigit('\t');
  }

  lemma TaggedNoTab(tag: string, big: nat, unit: string, small: nat, rest: string)
    requires '\t' !in tag && '\t' !in unit && '\t' !in rest
    ensures '\t' !in Tagged(tag, big, unit, small, rest)
  {
    DecHasNoTab(big);
    DecHasNoTab(small);
  }

  lemma LabelHasNoTab(ms: int)
    ensures '\t' !in Label(ms)
  {
    if ms <= 0 {
      ExpiredLooks();
    } else {
      var s := ShownFor(ms);
      TagsHaveNoTab(s.colour, s.unit, s.rest);
      TaggedNoTab(Tag(s.colour), s.big, Letter(s.unit), s.small, Letter(s.rest));
    }
  }

  lemma TagsHaveNoTab(c: Colour, u: Unit, v: Unit)
    ensures '\t' !in Tag(c) && '\t' !in Letter(u) && '\t' !in Letter(v)
  {
    TagsAreWords();
    assert '\t' !in "d" && '\t' !in "h" && '\t' !in "m" && '\t' !in "s";
  }

  /** A reader of the row sees the thread's id, this label, and the thread's title. */
  predicate ShowsThread(row: string, t: Thread, left: string) {
    t.id >= 0 && ReadRow(row) == Some((t.id, left, t.title))
  }

  lemma RowTextShows(t: Thread, left: string)
    requires t.id >= 0 && '\t' !in left
    ensures ShowsThread(RowText(t.id, left, t.title), t, left)
  {
    RowParts(t.id, left, t.title);
  }

  lemma LabelRowShows(t: Thread, ms: int)
    requires t.id >= 0
    ensures ShowsThread(RowText(t.id, Label(ms), t.title), t, Label(ms))
  {
    LabelHasNoTab(ms);
    RowTextShows(t, Label(ms));
  }

  /** A row of the list shows the thread's id, the label of the time from the clock reading to the thread's
      expiry, and the thread's title, whatever characters that has. */
  lemma RowShows(t: Thread, clock: int)
    requires t.id >= 0
    ensures ShowsThread(Row(t, clock), t, Label(B.Remaining(t, clock)))
    ensures B.Remaining(t, clock) == t.created + t.ttl - clock
  {
    LabelRowShows(t, B.Remaining(t, clock));
  }

  lemma {:induction false} RowsAre(threads: seq<Thread>, clocks: seq<int>, k: nat)
    requires |clocks| == |threads| && k < |threads| && forall i :: 0 <= i < |threads| ==> threads[i].id >= 0
    ensures Rows(threads, clocks)[k] == Row(threads[k], clocks[k])
  {
    var n := |threads| - 1;
    if k == n {
    } else {
      RowsAre(threads[..n], clocks[..n], k);
    }
  }

  /** And the list has the rows of its threads in order, each at its own clock reading. */
  lemma RowsShow(threads: seq<Thread>, clocks: seq<int>, k: nat)
    requires |clocks| == |threads| && k < |threads| && forall i :: 0 <= i < |threads| ==> threads[i].id >= 0
    ensures ShowsThread(Rows(threads, clocks)[k], threads[k], Label(B.Remaining(threads[k], clocks[k])))
  {
    RowsAre(threads, clocks, k);
    RowShows(threads[k], clocks[k]);
  }

  function RowUrgency(t: Thread, clock: int): nat {
    Urgency(ColourOf(B.Remaining(t, clock)))
  }

  /** End to end: whatever clock the server sorted with, for any one later or earlier clock reading the
      client's rows of a `threads` reply run from most to least urgent. */
  lemma ListingInUrgencyOrder(sort: B.Sorter, shelf: B.Shelf, user: string, now: int, clock: int)
    requires B.Filed(shelf) && B.SortContract(sort)
    ensures
      var reply := B.Serve(sort, shelf, user, Threads, now).1;
      reply.ThreadList? &&
      forall i, j :: 0 <= i < j < |reply.topics| ==> RowUrgency(reply.topics[i], clock) <= RowUrgency(reply.topics[j], clock)
  {
    B.ListingOrder(sort, shelf, user, now);
    var topics := B.Serve(sort, shelf, user, Threads, now).1.topics;
    forall i, j | 0 <= i < j < |topics| ensures RowUrgency(topics[i], clock) <= RowUrgency(topics[j], clock) {
      assert B.Expiry(topics[i]) <= B.Expiry(topics[j]);
      UrgencyMonotone(B.Remaining(topics[i], clock), B.Remaining(topics[j], clock));
    }
  }

  /** The clock is read once per row, so it may move on by `drift` between two rows.  Exactly when the two
      rows are in order at every time of day: when the gap between their expiries is at least the drift. */
  lemma DriftWithinGap(a: Thread, b: Thread, drift: int)
    ensures (forall clock :: RowUrgency(a, clock) <= RowUrgency(b, clock + drift)) <==> B.Expiry(b) - B.Expiry(a) >= drift
  {
    if B.Expiry(b) - B.Expiry(a) >= drift {
      forall clock ensures RowUrgency(a, clock) <= RowUrgency(b, clock + drift) {
        UrgencyMonotone(B.Remaining(a, clock), B.Remaining(b, clock + drift));
      }
    } else {
      var clock := B.Expiry(a) - 1;
      assert B.Remaining(a, clock) == 1 && B.Remaining(b, clock + drift) <= 0;
      assert RowUrgency(a, clock) == 1 && RowUrgency(b, clock + drift) == 0;
    }
  }

  /** The rows of a list, each at its own drift after `clock`, run from most to least urgent. */
  ghost predicate InUrgencyOrder(threads: seq<Thread>, drifts: seq<int>, clock: int)
    requires |drifts| == |threads|
  {
    forall i, j :: 0 <= i < j < |threads| ==>
      RowUrgency(threads[i], clock + drifts[i]) <= RowUrgency(threads[j], clock + drifts[j])
  }

  /** From each row to the next, the expiry moves on by at least as much as the clock. */
  predicate GapsCoverDrifts(threads: seq<Thread>, drifts: seq<int>)
    requires |drifts| == |threads|
  {
    forall k :: 0 < k < |threads| ==> B.Expiry(threads[k]) - B.Expiry(threads[k - 1]) >= drifts[k] - drifts[k - 1]
  }

  lemma {:induction false} GapsAddUp(threads: seq<Thread>, drifts: seq<int>, i: nat, j: nat)
    requires |drifts| == |threads| && GapsCoverDrifts(threads, drifts) && i <= j < |threads|
    ensures B.Expiry(threads[j]) - B.Expiry(threads[i]) >= drifts[j] - drifts[i]
    decreases j
  {
    if i == j {
    } else {
      GapsAddUp(threads, drifts, i, j - 1);
    }
  }

  lemma CoveredIsOrdered(threads: seq<Thread>, drifts: seq<int>, clock: int)
    requires |drifts| == |threads| && GapsCoverDrifts(threads, drifts)
    ensures InUrgencyOrder(threads, drifts, clock)
  {
    forall i, j | 0 <= i < j < |threads|
      ensures RowUrgency(threads[i], clock + drifts[i]) <= RowUrgency(threads[j], clock + drifts[j])
    {
      GapsAddUp(threads, drifts, i, j);
      UrgencyMonotone(B.Remaining(threads[i], clock + drifts[i]), B.Remaining(threads[j], clock + drifts[j]));
    }
  }

  /** A whole list with the clock moving on while it is built: its rows are in order of urgency at every time of
      day if and only if every gap between neighbours covers the drift between them. */
  lemma ListInOrder(threads: seq<Thread>, drifts: seq<int>)
    requires |drifts| == |threads|
    ensures (forall clock :: InUrgencyOrder(threads, drifts, clock)) <==> GapsCoverDrifts(threads, drifts)
  {
    if GapsCoverDrifts(threads, drifts) {
      forall clock ensures InUrgencyOrder(threads, drifts, clock) {
        CoveredIsOrdered(threads, drifts, clock);
      }
    } else {
      var k :| 0 < k < |threads| && B.Expiry(threads[k]) - B.Expiry(threads[k - 1]) < drifts[k] - drifts[k - 1];
      var clock := B.Expiry(threads[k - 1]) - drifts[k - 1] - 1;
      assert RowUrgency(threads[k - 1], clock + drifts[k - 1]) == 1 && RowUrgency(threads[k], clock + drifts[k]) == 0;
      assert !InUrgencyOrder(threads, drifts, clock);
    }
  }

  /** Two threads that expire together. */
  function Tied(): B.Shelf {
    B.Shelf(map[1 := Thread(1, "a", "x", "x", 1000, 0, []), 2 := Thread(2, "b", "y", "y", 1000, 0, [])], 3)
  }

  lemma TiedTopics(t: Thread)
    ensures |B.Topics(Tied())| == 2
    ensures t in B.Topics(Tied()) ==> B.Expiry(t) == 1000
  {
    var threads := Tied().threads;
    assert B.TopicsBelow(threads, 1) == [];
    assert B.TopicsBelow(threads, 2) == [threads[1]];
    assert B.TopicsBelow(threads, 3) == [threads[1], threads[2]];
  }

  lemma SortKeeps(sort: B.Sorter, threads: seq<Thread>, now: int)
    requires B.SortContract(sort)
    ensures |sort(threads, B.ByRemaining(now))| == |threads|
    ensures forall t :: t in sort(threads, B.ByRemaining(now)) ==> t in threads
  {
    B.ByRemainingConsistent(now);
    var listed := sort(threads, B.ByRemaining(now));
    assert multiset(listed) == multiset(threads);
    assert |listed| == |multiset(listed)| && |threads| == |multiset(threads)|;
    forall t | t in listed ensures t in threads {
      assert t in multiset(listed);
    }
  }

  lemma TiedIsFiled()
    ensures B.Filed(Tied())
  {
  }

  lemma TiedListing(sort: B.Sorter, user: string, now: int) returns (topics: seq<Thread>)
    requires B.SortContract(sort)
    ensures B.Serve(sort, Tied(), user, Threads, now).1 == ThreadList(topics)
    ensures |topics| == 2 && B.Expiry(topics[0]) == 1000 && B.Expiry(topics[1]) == 1000
  {
    topics := sort(B.Topics(Tied()), B.ByRemaining(now));
    SortKeeps(sort, B.Topics(Tied()), now);
    TiedTopics(topics[0]);
    TiedTopics(topics[1]);
  }

  lemma AtTheTick(t: Thread)
    requires B.Expiry(t) == 1000
    ensures RowUrgency(t, 999) == 1 && RowUrgency(t, 1000) == 0
  {
  }

  /** If the clock ticks between their rows at the right moment, the first is shown as red and the
      second as expired, whatever the engine's sort makes of the tie. */
  lemma TickSplitsTie(sort: B.Sorter, user: string, now: int)
    requires B.SortContract(sort)
    ensures B.Filed(Tied())
    ensures exists topics ::
      && B.Serve(sort, Tied(), user, Threads, now).1 == ThreadList(topics) && |topics| == 2
      && RowUrgency(topics[0], 999) > RowUrgency(topics[1], 1000)
      && !InUrgencyOrder(topics, [0, 1], 999)
  {
    TiedIsFiled();
    var topics := TiedListing(sort, user, now);
    AtTheTick(topics[0]);
    AtTheTick(topics[1]);
    assert [0, 1][0] == 0 && [0, 1][1] == 1;
  }
}
