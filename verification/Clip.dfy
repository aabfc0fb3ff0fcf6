/** Cutting an alert to Telegram's size (`_clip` in backend/app/alerts.py): the cut loop, the
    newline rule, and in HTML mode a cut that never splits a tag or an entity and that closes
    the tags left open. */
module Clip {
  import opened Basics

  // ---------------------------------------------------------------- UTF-16 length

  /** Code units of one character in UTF-16 (section 2.1 of RFC 2781). */
  function Units(c: char): (n: nat)
    ensures 1 <= n <= 2
  {
    if c as int >= 0x1_0000 then 2 else 1
  }

  function U16(s: string): nat {
    if s == "" then 0 else U16(s[..|s| - 1]) + Units(s[|s| - 1])
  }

  lemma {:induction false} U16Bounds(s: string)
    ensures |s| <= U16(s) <= 2 * |s|
  {
    if s != "" { U16Bounds(s[..|s| - 1]); }
  }

  lemma {:induction false} U16Concat(a: string, b: string)
    ensures U16(a + b) == U16(a) + U16(b)
  {
    if b == "" {
      assert a + b == a;
    } else {
      U16Concat(a, b[..|b| - 1]);
      assert (a + b)[..|a + b| - 1] == a + b[..|b| - 1];
    }
  }

  lemma U16Prefix(s: string, n: nat)
    requires n <= |s|
    ensures U16(s[..n]) <= U16(s)
  {
    hide U16;
    U16Concat(s[..n], s[n..]);
    assert s == s[..n] + s[n..];
  }

  lemma ThreeDots()
    ensures U16("...") == 3
  {
    assert "..."[..2] == ".." && ".."[..1] == "." && "."[..0] == "";
  }

  // ---------------------------------------------------------------- string helpers

  lemma Assoc<T>(a: seq<T>, b: seq<T>, c: seq<T>)
    ensures (a + b) + c == a + (b + c)
  {
  }

  lemma SplitConcat<T>(a: seq<T>, b: seq<T>)
    ensures (a + b)[..|a|] == a && (a + b)[|a|..] == b
  {
  }

  lemma PrefixInside<T>(a: seq<T>, b: seq<T>, c: seq<T>, d: nat)
    requires d <= |b|
    ensures (a + (b + c))[..|a| + d] == a + b[..d]
  {
  }

  /** Python's `s[:n]` for a non-negative `n`. */
  function Take(s: string, n: nat): string { if n <= |s| then s[..n] else s }

  /** Python's `s.rfind(c)`. */
  function RFind(s: string, c: char): (r: int)
    ensures -1 <= r < |s|
  {
    if s == "" then -1
    else if s[|s| - 1] == c then |s| - 1
    else RFind(s[..|s| - 1], c)
  }

  lemma {:induction false} RFindIsLast(s: string, c: char)
    ensures RFind(s, c) >= 0 ==> s[RFind(s, c)] == c
    ensures forall j :: RFind(s, c) < j < |s| ==> s[j] != c
  {
    if s != "" && s[|s| - 1] != c { RFindIsLast(s[..|s| - 1], c); }
  }

  lemma {:induction false} RFindConcat(a: string, b: string, c: char)
    ensures RFind(a + b, c) == if RFind(b, c) >= 0 then |a| + RFind(b, c) else RFind(a, c)
  {
    if b == "" {
      assert a + b == a;
    } else {
      assert (a + b)[|a + b| - 1] == b[|b| - 1];
      assert (a + b)[..|a + b| - 1] == a + b[..|b| - 1];
      if b[|b| - 1] != c { RFindConcat(a, b[..|b| - 1], c); }
    }
  }

  predicate Lacks(s: string, c: char) { forall j :: 0 <= j < |s| ==> s[j] != c }

  lemma {:induction false} RFindLacks(s: string, c: char)
    requires Lacks(s, c)
    ensures RFind(s, c) == -1
  {
    if s != "" { RFindLacks(s[..|s| - 1], c); }
  }

  predicate IsSpace(c: char) {
    var n := c as int;
    || 0x09 <= n <= 0x0d || 0x1c <= n <= 0x20 || n == 0x85 || n == 0xa0 || n == 0x1680
    || 0x2000 <= n <= 0x200a || n == 0x2028 || n == 0x2029 || n == 0x202f || n == 0x205f || n == 0x3000
  }

  /** The white space of ASCII. */
  lemma AsciiSpaces(c: char)
    requires c as int < 128
    ensures IsSpace(c) <==>
      c in {'\t', '\n', '\U{0B}', '\U{0C}', '\r', '\U{1C}', '\U{1D}', '\U{1E}', '\U{1F}', ' '}
  {
  }

  /** Python's `s.rstrip()`. */
  function RStrip(s: string): (r: string)
    ensures r <= s
  {
    if s != "" && IsSpace(s[|s| - 1]) then RStrip(s[..|s| - 1]) else s
  }

  lemma {:induction false} RStripConcat(a: string, b: string)
    ensures RStrip(a + b) == if RStrip(b) != "" then a + RStrip(b) else RStrip(a)
  {
    if b == "" {
      assert a + b == a;
    } else {
      assert (a + b)[|a + b| - 1] == b[|b| - 1];
      assert (a + b)[..|a + b| - 1] == a + b[..|b| - 1];
      if IsSpace(b[|b| - 1]) { RStripConcat(a, b[..|b| - 1]); }
    }
  }

  // ---------------------------------------------------------------- where to cut

  /** The cut loop: start at `n` and give back the overshoot until the prefix fits. */
  function Fit(text: string, n: nat, room: nat): (r: nat)
    requires n <= room
    ensures r <= n
    ensures U16(Take(text, r)) <= room
    ensures U16(text) > room ==> r <= |text|
    decreases n
  {
    U16Bounds(Take(text, n));
    if n > 0 && U16(Take(text, n)) > room then
      Fit(text, n - (U16(Take(text, n)) - room), room)
    else n
  }

  /** Back to the last line break if it lies in the second half. */
  function AtLine(text: string, n: nat): (r: nat)
    requires n <= |text|
    ensures r <= n
  {
    var nl := RFind(text[..n], '\n');
    if nl > n / 2 then nl else n
  }

  /** Back to the last opener `a` if no closer `b` follows it before `n`. */
  function Outside(text: string, n: nat, a: char, b: char): (r: nat)
    requires n <= |text|
    ensures r <= n
  {
    var p := RFind(text[..n], a);
    if p > RFind(text[..n], b) then p else n
  }

  function Cut(text: string, html: bool, room: nat): (n: nat)
    requires U16(text) > room
    ensures n <= Fit(text, room, room) <= |text|
  {
    var n1 := AtLine(text, Fit(text, room, room));
    if !html then n1 else Outside(text, Outside(text, n1, '<', '>'), '&', ';')
  }

  lemma CutFits(text: string, html: bool, room: nat)
    requires U16(text) > room
    ensures U16(text[..Cut(text, html, room)]) <= room
  {
    hide U16, AtLine, Outside;
    var n, m := Cut(text, html, room), Fit(text, room, room);
    U16Prefix(text[..m], n);
    assert text[..m][..n] == text[..n];
  }

  // ---------------------------------------------------------------- how much is kept

  /** How many characters take two units. */
  function Wide(s: string): (n: nat)
    ensures n <= |s|
  {
    if s == "" then 0 else Wide(s[..|s| - 1]) + if s[|s| - 1] as int >= 0x1_0000 then 1 else 0
  }

  lemma {:induction false} UnitsAreWide(s: string)
    ensures U16(s) == |s| + Wide(s)
  {
    if s != "" { UnitsAreWide(s[..|s| - 1]); }
  }

  /** The loop stops where it began, or gives back from some longer prefix that does not fit exactly as many
      characters as that one has units too many. */
  lemma {:induction false} FitStops(text: string, n: nat, room: nat) returns (m: nat)
    requires n <= room
    ensures Fit(text, n, room) <= m <= n
    ensures Fit(text, n, room) == n || U16(Take(text, m)) > room
    ensures Fit(text, n, room) == n || Fit(text, n, room) == m - (U16(Take(text, m)) - room)
    decreases n
  {
    hide Fit, U16;
    FitUnfolds(text, n, room);
    m := n;
    if n > 0 && U16(Take(text, n)) > room {
      var rest := n - (U16(Take(text, n)) - room);
      if Fit(text, rest, room) < rest { m := FitStops(text, rest, room); }
    }
  }

  /** From a text with as many characters as there is room, exactly as many characters are given back as
      there are wide ones among the first. */
  lemma FitIs(text: string, room: nat)
    requires room <= |text|
    ensures Fit(text, room, room) == room - Wide(text[..room])
  {
    hide Fit, U16, Wide, Take;
    var r := room - Wide(text[..room]);
    TakeUnits(text, room, room);
    TakeUnits(text, r, room);
    FitUnfolds(text, room, room);
    FitUnfolds(text, r, room);
  }

  lemma TakeUnits(text: string, n: nat, room: nat)
    requires n <= room <= |text|
    ensures U16(Take(text, n)) == n + Wide(text[..n]) <= n + Wide(text[..room])
  {
    hide U16, Wide;
    UnitsAreWide(text[..n]);
    WidePrefix(text[..room], n);
    assert text[..room][..n] == text[..n];
  }

  lemma FitUnfolds(text: string, n: nat, room: nat)
    requires n <= room
    ensures U16(Take(text, n)) <= 2 * n
    ensures Fit(text, n, room) ==
      if n > 0 && U16(Take(text, n)) > room then Fit(text, n - (U16(Take(text, n)) - room), room) else n
  {
    U16Bounds(Take(text, n));
  }

  lemma {:induction false} WidePrefix(s: string, n: nat)
    requires n <= |s|
    ensures Wide(s[..n]) <= Wide(s)
  {
    if n < |s| {
      WidePrefix(s[..|s| - 1], n);
      assert s[..|s| - 1][..n] == s[..n];
    } else {
      assert s[..n] == s;
    }
  }

  /** Where plain text is cut: at that index, unless a line break lies behind half of it; then at the last
      such break. */
  lemma PlainCutIs(text: string, room: nat)
    requires U16(text) > room
    ensures var f, n := Fit(text, room, room), Cut(text, false, room);
      || (n == f && forall p :: f / 2 < p < f ==> text[p] != '\n')
      || (f / 2 < n < f && text[n] == '\n' && forall p :: n < p < f ==> text[p] != '\n')
  {
    hide U16, Fit, RFind;
    var f := Fit(text, room, room);
    RFindIsLast(text[..f], '\n');
    assert forall p :: 0 <= p < f ==> text[..f][p] == text[p];
  }

  /** Stepping out of an unfinished tag or entity: nowhere if every opener before is followed by a closer,
      else exactly to the opener that is not. */
  lemma OutsideIs(text: string, n: nat, a: char, b: char)
    requires n <= |text| && a != b
    ensures var r := Outside(text, n, a, b);
      || (r == n && forall p :: 0 <= p < n && text[p] == a ==> exists q :: p < q < n && text[q] == b)
      || (r < n && text[r] == a && forall q :: r < q < n ==> text[q] != a && text[q] != b)
  {
    hide RFind;
    RFindIsLast(text[..n], a);
    RFindIsLast(text[..n], b);
    assert forall p :: 0 <= p < n ==> text[..n][p] == text[p];
    var q := RFind(text[..n], b);
    if RFind(text[..n], a) <= q {
      forall p | 0 <= p < n && text[p] == a ensures exists q :: p < q < n && text[q] == b {
        assert text[q] == b && p < q;
      }
    }
  }

  /** HTML text is cut where plain text is, then out of a tag, then out of an entity. */
  lemma HtmlCutIs(text: string, room: nat)
    requires U16(text) > room
    ensures Cut(text, true, room) == Outside(text, Outside(text, Cut(text, false, room), '<', '>'), '&', ';')
  {
  }

  /** Stripping takes off exactly the white space at the end. */
  lemma {:induction false} StripIs(s: string)
    ensures var r := RStrip(s);
      && |r| <= |s| && r == s[..|r|] && (forall p :: |r| <= p < |s| ==> IsSpace(s[p]))
      && (r != "" ==> !IsSpace(s[|r| - 1]))
  {
    if s != "" && IsSpace(s[|s| - 1]) { StripIs(s[..|s| - 1]); }
  }

  /** At least half of what fits is kept of a plain text, before white space is stripped; of a text of
      one-unit characters that is half of the room. */
  lemma KeepsHalf(text: string, room: nat)
    requires U16(text) > room
    ensures Cut(text, false, room) >= Fit(text, room, room) / 2
    ensures Wide(text) == 0 ==> Fit(text, room, room) == room
  {
    PlainCutIs(text, room);
    UnitsAreWide(text);
    if Wide(text) == 0 {
      FitIs(text, room);
      WidePrefix(text, room);
    }
    hide U16, Fit, Cut;
  }

  /** A flaw of the loop: from a text that begins with as many wide characters as there is room, nothing is
      kept. */
  lemma WideTextIsLost(text: string, limit: nat)
    requires limit >= 3 && |text| >= limit && forall p :: 0 <= p < limit ==> text[p] as int >= 0x1_0000
    ensures U16(text) > limit && Clipped(text, false, limit) == "..."
  {
    var room := limit - 3;
    AllWide(text[..limit]);
    U16Prefix(text, limit);
    UnitsAreWide(text[..limit]);
    AllWide(text[..room]);
    FitIs(text, room);
    PlainCutIs(text, room);
    hide U16, Fit, Wide;
    assert Cut(text, false, room) == 0;
    assert text[..0] == "" && RStrip("") == "";
  }

  lemma {:induction false} AllWide(s: string)
    requires forall p :: 0 <= p < |s| ==> s[p] as int >= 0x1_0000
    ensures Wide(s) == |s|
  {
    if s != "" { AllWide(s[..|s| - 1]); }
  }

  // ---------------------------------------------------------------- tags

  datatype Mark = Mark(close: bool, name: string)

  predicate IsLetter(c: char) { 'a' <= c <= 'z' || 'A' <= c <= 'Z' }

  /** `[\w-]`; characters beyond ASCII are all counted as word characters. */
  predicate IsWord(c: char) { IsLetter(c) || '0' <= c <= '9' || c == '_' || c == '-' || c as int >= 128 }

  /** The word characters of ASCII: letters, digits, underscore and hyphen. */
  lemma AsciiWords(c: char)
    requires c as int < 128
    ensures IsWord(c) <==>
      || LowerChar(c) in {'a', 'b', 'c', 'd', 'e', 'f', 'g', 'h', 'i', 'j', 'k', 'l', 'm',
                          'n', 'o', 'p', 'q', 'r', 's', 't', 'u', 'v', 'w', 'x', 'y', 'z'}
      || c in {'0', '1', '2', '3', '4', '5', '6', '7', '8', '9', '_', '-'}
  {
  }

  function LowerChar(c: char): char {
    if 'A' <= c <= 'Z' then (c as int + 32) as char else c
  }

  function Lower(s: string): (r: string)
    ensures |r| == |s|
  {
    if s == "" then "" else [LowerChar(s[0])] + Lower(s[1..])
  }

  /** A letter goes to its small letter, anything else to itself. */
  lemma LowerIs(c: char)
    ensures var small, big := "abcdefghijklmnopqrstuvwxyz", "ABCDEFGHIJKLMNOPQRSTUVWXYZ";
      && (forall k :: 0 <= k < 26 && c == big[k] ==> LowerChar(c) == small[k])
      && (c !in big ==> LowerChar(c) == c)
  {
    var small, big := "abcdefghijklmnopqrstuvwxyz", "ABCDEFGHIJKLMNOPQRSTUVWXYZ";
    assert forall k :: 0 <= k < 26 ==> big[k] as int == 65 + k && small[k] as int == 97 + k;
    if 'A' <= c <= 'Z' { assert c == big[c as int - 65]; }
  }

  /** Length of the run of word characters at the front. */
  function WordRun(s: string): (n: nat)
    ensures n <= |s|
  {
    if s != "" && IsWord(s[0]) then 1 + WordRun(s[1..]) else 0
  }

  /** Position of the first `>`, or the length. */
  function FirstGt(s: string): (n: nat)
    ensures n <= |s|
  {
    if s == "" || s[0] == '>' then 0 else 1 + FirstGt(s[1..])
  }

  function Lead(close: bool): string { if close then "</" else "<" }

  /** A match of `<(/?)([a-zA-Z][\w-]*)[^>]*>` at the front: the mark and the length matched. */
  function MatchTag(s: string): (r: Option<(Mark, nat)>)
    ensures r.Some? ==> 0 < r.value.1 <= |s|
  {
    if s == "" || s[0] != '<' then None
    else if |s| > 1 && s[1] == '/' then MatchName(true, s[2..])
    else MatchName(false, s[1..])
  }

  function MatchName(close: bool, body: string): (r: Option<(Mark, nat)>)
    ensures r.Some? ==> 0 < r.value.1 <= |Lead(close)| + |body|
  {
    if body == "" || !IsLetter(body[0]) then None
    else
      var w := WordRun(body);
      var g := FirstGt(body[w..]);
      if w + g == |body| then None
      else Some((Mark(close, Lower(body[..w])), |Lead(close)| + w + g + 1))
  }

  /** `findall` over the whole text. */
  function FindTags(s: string): seq<Mark> {
    if s == "" then []
    else match MatchTag(s)
      case Some((m, n)) => [m] + FindTags(s[n..])
      case None => FindTags(s[1..])
  }

  /** `while stack and stack.pop() != tag`. */
  function PopTo(stack: seq<string>, name: string): seq<string> {
    if stack == [] then []
    else if stack[|stack| - 1] == name then stack[..|stack| - 1]
    else PopTo(stack[..|stack| - 1], name)
  }

  function OnMark(stack: seq<string>, m: Mark): seq<string> {
    if !m.close then stack + [m.name]
    else if m.name in stack then PopTo(stack, m.name)
    else stack
  }

  /** What one tag does to the stack: an opening tag is added; a closing one takes off everything from its
      last opening on, or nothing if it was not opened. */
  lemma {:induction false} MarkIs(stack: seq<string>, m: Mark)
    ensures !m.close ==> OnMark(stack, m) == stack + [m.name]
    ensures m.close && m.name !in stack ==> OnMark(stack, m) == stack
    ensures m.close && m.name in stack ==>
      var rest := OnMark(stack, m);
      && |rest| < |stack| && rest == stack[..|rest|] && stack[|rest|] == m.name
      && forall k :: |rest| < k < |stack| ==> stack[k] != m.name
  {
    if m.close && m.name in stack && stack[|stack| - 1] != m.name {
      var init := stack[..|stack| - 1];
      assert m.name in init;
      MarkIs(init, m);
    }
  }

  /** The stack of open tags after reading `marks`. */
  function Unclosed(marks: seq<Mark>, stack: seq<string>): seq<string> {
    if marks == [] then stack else Unclosed(marks[1..], OnMark(stack, marks[0]))
  }

  /** The closing tags for a stack, innermost first. */
  function Closers(stack: seq<string>): string {
    if stack == [] then "" else ("</" + stack[|stack| - 1] + ">") + Closers(stack[..|stack| - 1])
  }

  function Clipped(text: string, html: bool, limit: nat): string
    requires limit >= 3
  {
    if U16(text) <= limit then text
    else
      var head := Head(text, html, limit);
      if html then head + Closers(Unclosed(FindTags(head), [])) else head
  }

  /** What is kept of a text that is too long, and the dots. */
  function Head(text: string, html: bool, limit: nat): string
    requires limit >= 3 && U16(text) > limit
  {
    RStrip(text[..Cut(text, html, limit - 3)]) + "..."
  }

  // ---------------------------------------------------------------- the source's procedure

  method Shorten(text: string, html: bool, limit: nat) returns (out: string)
    requires limit >= 3
    ensures out == Clipped(text, html, limit)
  {
    if U16(text) <= limit { return text; }
    var n := FindCut(text, html, limit - 3);
    var head := RStrip(text[..n]) + "...";
    if !html { return head; }
    var stack := OpenTags(FindTags(head));
    var tail := CloseAll(stack);
    out := head + tail;
  }

  method FindCut(text: string, html: bool, room: nat) returns (n: nat)
    requires U16(text) > room
    ensures n == Cut(text, html, room)
  {
    n := room;
    while n > 0 && U16(Take(text, n)) > room
      invariant 0 <= n <= room
      invariant Fit(text, n, room) == Fit(text, room, room)
    {
      U16Bounds(Take(text, n));
      n := n - (U16(Take(text, n)) - room);
    }
    hide U16, RFind;
    var nl := RFind(text[..n], '\n');
    if nl > n / 2 { n := nl; }
    if html {
      var lt := RFind(text[..n], '<');
      if lt > RFind(text[..n], '>') { n := lt; }
      var amp := RFind(text[..n], '&');
      if amp > RFind(text[..n], ';') { n := amp; }
    }
  }

  method OpenTags(marks: seq<Mark>) returns (stack: seq<string>)
    ensures stack == Unclosed(marks, [])
  {
    stack := [];
    for i := 0 to |marks|
      invariant Unclosed(marks[i..], stack) == Unclosed(marks, [])
    {
      assert marks[i..][1..] == marks[i + 1..];
      var m := marks[i];
      if !m.close {
        stack := stack + [m.name];
      } else if m.name in stack {
        ghost var before := stack;
        var found := false;
        while stack != [] && !found
          invariant if found then stack == PopTo(before, m.name) else PopTo(stack, m.name) == PopTo(before, m.name)
          decreases |stack|
        {
          found := stack[|stack| - 1] == m.name;
          stack := stack[..|stack| - 1];
        }
      }
    }
  }

  method CloseAll(open: seq<string>) returns (tail: string)
    ensures tail == Closers(open)
  {
    tail := "";
    var stack := open;
    while stack != []
      invariant tail + Closers(stack) == Closers(open)
      decreases |stack|
    {
      var t := "</" + stack[|stack| - 1] + ">";
      Assoc(tail, t, Closers(stack[..|stack| - 1]));
      tail := tail + t;
      stack := stack[..|stack| - 1];
    }
  }

  // ---------------------------------------------------------------- plain text

  /** The part in front of the closing tags fits the limit. */
  lemma HeadFits(text: string, html: bool, limit: nat)
    requires limit >= 3 && U16(text) > limit
    ensures U16(Head(text, html, limit)) <= limit
    ensures exists body :: body <= text && Head(text, html, limit) == body + "..."
  {
    hide U16, RStrip, Cut;
    var kept := text[..Cut(text, html, limit - 3)];
    CutFits(text, html, limit - 3);
    var body := RStrip(kept);
    U16Prefix(kept, |body|);
    assert kept[..|body|] == body;
    U16Concat(body, "...");
    ThreeDots();
  }

  /** Plain text that had to be cut becomes a prefix plus three dots, and fits the limit. */
  lemma PlainFits(text: string, limit: nat)
    requires limit >= 3
    ensures U16(Clipped(text, false, limit)) <= limit
    ensures U16(text) <= limit ==> Clipped(text, false, limit) == text
    ensures U16(text) > limit ==> exists body :: body <= text && Clipped(text, false, limit) == body + "..."
  {
    hide U16, Head;
    if U16(text) > limit { HeadFits(text, false, limit); }
  }

  /** Three characters and the name for each tag. */
  function CloserUnits(open: seq<string>): nat {
    if open == [] then 0 else U16(open[|open| - 1]) + 3 + CloserUnits(open[..|open| - 1])
  }

  lemma {:induction false} ClosersAre(open: seq<string>)
    ensures U16(Closers(open)) == CloserUnits(open)
  {
    if open != [] {
      var name, init := open[|open| - 1], open[..|open| - 1];
      ClosersAre(init);
      hide U16;
      U16Concat("</" + name + ">", Closers(init));
      U16Concat("</" + name, ">");
      U16Concat("</", name);
      Brackets();
    }
  }

  lemma Brackets()
    ensures U16("</") == 2 && U16(">") == 1
  {
    assert "</"[..1] == "<" && "<"[..0] == "" && ">"[..0] == "";
    assert U16("<") == 1;
  }

  const TG_MAX: nat := 4000

  /** The length of an HTML result: the limit bounds the part in front of the closing tags, which come on
      top of it. At the usual limit the message is acceptable to Telegram exactly if the closing tags fit
      into what is left of 4096, and always if they take at most 96 units. */
  lemma HtmlFitsExactlyWhen(text: string, limit: nat)
    requires limit >= 3
    ensures U16(text) <= limit ==> Clipped(text, true, limit) == text
    ensures U16(text) > limit ==>
      var head := Head(text, true, limit);
      var open := Unclosed(FindTags(head), []);
      && U16(head) <= limit
      && U16(Clipped(text, true, limit)) == U16(head) + CloserUnits(open) <= limit + CloserUnits(open)
      && (U16(Clipped(text, true, limit)) <= 4096 <==> CloserUnits(open) <= 4096 - U16(head))
      && (limit == TG_MAX && CloserUnits(open) <= 96 ==> U16(Clipped(text, true, limit)) <= 4096)
  {
    hide U16, Head, FindTags, Unclosed, Closers, CloserUnits;
    if U16(text) > limit {
      HeadFits(text, true, limit);
      var head := Head(text, true, limit);
      var open := Unclosed(FindTags(head), []);
      ClosersAre(open);
      U16Concat(head, Closers(open));
    }
  }

  // ---------------------------------------------------------------- well-formed HTML

  /** A text is read as tokens: plain characters, complete entities, whole tags. */
  datatype Token =
    | Plain(c: char)
    | Entity(body: string)
    | Tag(close: bool, name: string, attrs: string)

  datatype Html = End | Then(tok: Token, rest: Html)

  /** No bare angle bracket or ampersand; in attributes the last `&` is completed by a `;`. */
  predicate ValidToken(t: Token) {
    match t
    case Plain(c) => c != '<' && c != '>' && c != '&'
    case Entity(b) => Lacks(b, '<') && Lacks(b, '>') && Lacks(b, '&') && Lacks(b, ';')
    case Tag(_, name, attrs) =>
      && name != "" && IsLetter(name[0]) && AllWord(name)
      && Lacks(attrs, '<') && Lacks(attrs, '>') && RFind(attrs, '&') <= RFind(attrs, ';')
      && (attrs != "" ==> !IsWord(attrs[0]))
  }

  predicate AllWord(s: string) { forall j :: 0 <= j < |s| ==> IsWord(s[j]) }

  predicate Valid(h: Html) {
    match h case End => true case Then(t, rest) => ValidToken(t) && Valid(rest)
  }

  function Render(t: Token): string {
    match t
    case Plain(c) => [c]
    case Entity(b) => "&" + (b + ";")
    case Tag(close, name, attrs) => Lead(close) + (name + (attrs + ">"))
  }

  function Text(h: Html): string {
    match h case End => "" case Then(t, rest) => Render(t) + Text(rest)
  }

  function Append(a: Html, b: Html): Html {
    match a case End => b case Then(t, rest) => Then(t, Append(rest, b))
  }

  /** Strict nesting: a closing tag must close the innermost open one. */
  function Walk(h: Html, stack: seq<string>): Option<seq<string>> {
    match h
    case End => Some(stack)
    case Then(t, rest) =>
      if !t.Tag? then Walk(rest, stack)
      else if !t.close then Walk(rest, stack + [Lower(t.name)])
      else if stack != [] && stack[|stack| - 1] == Lower(t.name) then Walk(rest, stack[..|stack| - 1])
      else None
  }

  predicate WellNested(h: Html) { Valid(h) && Walk(h, []) == Some([]) }

  lemma {:induction false} AppendFacts(a: Html, b: Html)
    ensures Text(Append(a, b)) == Text(a) + Text(b)
    ensures Valid(Append(a, b)) <==> Valid(a) && Valid(b)
  {
    match a
    case End => assert "" + Text(b) == Text(b);
    case Then(t, rest) => AppendFacts(rest, b); Assoc(Render(t), Text(rest), Text(b));
  }

  lemma {:induction false} WalkAppend(a: Html, b: Html, stack: seq<string>)
    ensures Walk(Append(a, b), stack) == match Walk(a, stack) case None => None case Some(s) => Walk(b, s)
    decreases a
  {
    match a
    case End =>
    case Then(t, rest) =>
      if !t.Tag? { WalkAppend(rest, b, stack); }
      else if !t.close { WalkAppend(rest, b, stack + [Lower(t.name)]); }
      else if stack != [] && stack[|stack| - 1] == Lower(t.name) { WalkAppend(rest, b, stack[..|stack| - 1]); }
  }

  // ---------------------------------------------------------------- reading tags back

  lemma {:induction false} SkipText(a: string, b: string)
    requires Lacks(a, '<')
    ensures FindTags(a + b) == FindTags(b)
  {
    hide MatchName;
    if a == "" {
      assert a + b == b;
    } else {
      SkipText(a[1..], b);
      assert (a + b)[1..] == a[1..] + b;
      assert (a + b)[0] == a[0];
    }
  }

  lemma {:induction false} WordRunConcat(a: string, b: string)
    requires AllWord(a) && b != "" && !IsWord(b[0])
    ensures WordRun(a + b) == |a|
  {
    if a == "" {
      assert a + b == b;
    } else {
      WordRunConcat(a[1..], b);
      assert (a + b)[1..] == a[1..] + b;
      assert (a + b)[0] == a[0];
    }
  }

  lemma {:induction false} FirstGtConcat(a: string, b: string)
    requires Lacks(a, '>') && b != "" && b[0] == '>'
    ensures FirstGt(a + b) == |a|
  {
    if a == "" {
      assert a + b == b;
    } else {
      FirstGtConcat(a[1..], b);
      assert (a + b)[1..] == a[1..] + b;
      assert (a + b)[0] == a[0];
    }
  }

  lemma NameIsRead(close: bool, name: string, tail: string, g: nat)
    requires name != "" && IsLetter(name[0]) && AllWord(name)
    requires FirstGt(tail) == g < |tail| && !IsWord(tail[0])
    ensures MatchName(close, name + tail) == Some((Mark(close, Lower(name)), |Lead(close)| + |name| + g + 1))
  {
    hide WordRun, FirstGt, Lower, IsWord, IsLetter;
    WordRunConcat(name, tail);
    SplitConcat(name, tail);
    assert (name + tail)[0] == name[0];
  }

  lemma LeadIsRead(close: bool, body: string)
    requires body != "" && body[0] != '/'
    ensures MatchTag(Lead(close) + body) == MatchName(close, body)
  {
    hide MatchName;
    SplitConcat(Lead(close), body);
  }

  lemma TagIsRead(t: Token, rest: string)
    requires ValidToken(t) && t.Tag?
    ensures FindTags(Render(t) + rest) == [Mark(t.close, Lower(t.name))] + FindTags(rest)
  {
    hide WordRun, FirstGt, Lower, MatchName, RFind;
    var tail := t.attrs + (">" + rest);
    var body := t.name + tail;
    assert Render(t) + rest == Lead(t.close) + body by {
      Assoc(t.attrs, ">", rest);
      Assoc(t.name, t.attrs + ">", rest);
      Assoc(Lead(t.close), t.name + (t.attrs + ">"), rest);
    }
    FirstGtConcat(t.attrs, ">" + rest);
    assert tail[0] == if t.attrs == "" then '>' else t.attrs[0];
    NameIsRead(t.close, t.name, tail, |t.attrs|);
    assert body[0] == t.name[0];
    LeadIsRead(t.close, body);
    SplitConcat(Render(t), rest);
  }

  /** On strictly nested text `findall` and the forgiving stack of the source compute the
      strict stack of open tags. */
  lemma {:induction false} TagsAreRead(h: Html, rest: string, stack: seq<string>)
    requires Valid(h) && Walk(h, stack).Some?
    ensures Unclosed(FindTags(Text(h) + rest), stack) == Unclosed(FindTags(rest), Walk(h, stack).value)
    decreases h
  {
    hide FindTags, Render;
    match h
    case End => assert "" + rest == rest;
    case Then(t, more) =>
      Assoc(Render(t), Text(more), rest);
      TokenIsRead(t, Text(more) + rest, stack);
      if !t.Tag? { TagsAreRead(more, rest, stack); }
      else if !t.close { TagsAreRead(more, rest, stack + [Lower(t.name)]); }
      else { TagsAreRead(more, rest, stack[..|stack| - 1]); }
  }

  lemma TokenIsRead(t: Token, rest: string, stack: seq<string>)
    requires ValidToken(t) && Walk(Then(t, End), stack).Some?
    ensures Unclosed(FindTags(Render(t) + rest), stack)
         == Unclosed(FindTags(rest), Walk(Then(t, End), stack).value)
  {
    if t.Tag? {
      hide FindTags, Render, ValidToken;
      TagIsRead(t, rest);
      var m := Mark(t.close, Lower(t.name));
      assert ([m] + FindTags(rest))[1..] == FindTags(rest);
    } else {
      assert Lacks(Render(t), '<');
      SkipText(Render(t), rest);
    }
  }

  // ---------------------------------------------------------------- the cut is between tokens

  /** No opener is left without its closer. */
  predicate Complete(s: string) { RFind(s, '<') <= RFind(s, '>') && RFind(s, '&') <= RFind(s, ';') }

  lemma CompleteConcat(a: string, b: string)
    requires Complete(a) && Complete(b)
    ensures Complete(a + b)
  {
    hide RFind;
    RFindConcat(a, b, '<'); RFindConcat(a, b, '>'); RFindConcat(a, b, '&'); RFindConcat(a, b, ';');
  }

  lemma {:induction false} TextComplete(h: Html)
    requires Valid(h)
    ensures Complete(Text(h))
  {
    match h
    case End =>
    case Then(t, rest) =>
      hide Complete, Render;
      TextComplete(rest); TokenComplete(t); CompleteConcat(Render(t), Text(rest));
  }

  lemma TokenComplete(t: Token)
    requires ValidToken(t)
    ensures Complete(Render(t))
  {
    match t
    case Plain(c) =>
      RFindLacks([c], '<'); RFindLacks([c], '&');
    case Entity(b) =>
      hide RFind;
      var r := Render(t);
      assert Lacks(r, '<');
      RFindLacks(r, '<');
      EndsWith(r);
    case Tag(close, name, attrs) => TagComplete(close, name, attrs);
  }

  lemma TagComplete(close: bool, name: string, attrs: string)
    requires ValidToken(Tag(close, name, attrs))
    ensures Complete(Render(Tag(close, name, attrs)))
  {
    hide RFind;
    var pre, post := Lead(close) + name, attrs + ">";
    Assoc(Lead(close), name, post);
    EndsWith(pre + post);
    NoAmp(name);
    AttrsComplete(attrs);
    RFindLacks(pre, '&');
    RFindConcat(pre, post, '&'); RFindConcat(pre, post, ';');
  }

  lemma AttrsComplete(attrs: string)
    requires RFind(attrs, '&') <= RFind(attrs, ';')
    ensures RFind(attrs + ">", '&') <= RFind(attrs + ">", ';')
  {
    hide RFind;
    RFindConcat(attrs, ">", '&'); RFindConcat(attrs, ">", ';');
    RFindLacks(">", '&'); RFindLacks(">", ';');
  }

  lemma NoAmp(name: string)
    requires AllWord(name)
    ensures Lacks(name, '&')
  {
    assert !IsWord('&');
  }

  lemma EndsWith(r: string)
    requires r != ""
    ensures RFind(r, r[|r| - 1]) == |r| - 1
  {
  }

  /** Every position lies in or just before some token. */
  lemma {:induction false} Locate(h: Html, n: nat) returns (a: Html, b: Html)
    requires n <= |Text(h)|
    ensures h == Append(a, b) && |Text(a)| <= n
    ensures if b.Then? then n < |Text(a)| + |Render(b.tok)| else n == |Text(h)|
  {
    match h
    case End => a, b := End, End;
    case Then(t, rest) =>
      if n < |Render(t)| {
        a, b := End, h;
      } else {
        var a', b' := Locate(rest, n - |Render(t)|);
        a, b := Then(t, a'), b';
      }
  }

  /** Stepping back out of tags and entities lands exactly on a token boundary. */
  lemma BackToBoundary(h: Html, n: nat) returns (a: Html, b: Html)
    requires Valid(h) && n <= |Text(h)|
    ensures h == Append(a, b)
    ensures Outside(Text(h), Outside(Text(h), n, '<', '>'), '&', ';') == |Text(a)|
  {
    hide Render, Outside, Complete;
    a, b := Locate(h, n);
    AppendFacts(a, b);
    TextComplete(a);
    match b
    case End =>
      assert Text(h) == Text(a) by { assert Text(a) + "" == Text(a); }
      assert Text(h)[..n] == Text(a);
      AtBoundary(Text(h), Text(a));
    case Then(t, rest) =>
      var d := n - |Text(a)|;
      PrefixInside(Text(a), Render(t), Text(rest), d);
      PrefixInside(Text(a), Render(t), Text(rest), 0);
      if d == 0 { AtBoundary(Text(h), Text(a)); } else { BackFrom(Text(h), Text(a), t, d); }
  }

  lemma AtBoundary(text: string, head: string)
    requires |head| <= |text| && text[..|head|] == head && Complete(head)
    ensures Outside(text, Outside(text, |head|, '<', '>'), '&', ';') == |head|
  {
    hide RFind;
  }

  lemma BackFrom(text: string, head: string, t: Token, d: nat)
    requires ValidToken(t) && 0 < d < |Render(t)|
    requires |head| + d <= |text| && text[..|head|] == head && text[..|head| + d] == head + Render(t)[..d]
    requires Complete(head)
    ensures Outside(text, Outside(text, |head| + d, '<', '>'), '&', ';') == |head|
  {
    hide RFind, Render;
    var part := Render(t)[..d];
    InsideToken(t, d);
    RFindConcat(head, part, '<'); RFindConcat(head, part, '>');
    RFindConcat(head, part, '&'); RFindConcat(head, part, ';');
  }

  /** A proper, non-empty piece of a token starts with the opener and lacks the closer. */
  lemma InsideToken(t: Token, d: nat)
    requires ValidToken(t) && 0 < d < |Render(t)|
    ensures !t.Plain?
    ensures var p := Render(t)[..d];
      if t.Tag? then RFind(p, '<') == 0 && RFind(p, '>') == -1
      else RFind(p, '<') == -1 && RFind(p, '>') == -1 && RFind(p, '&') == 0 && RFind(p, ';') == -1
  {
    hide RFind;
    match t
    case Plain(_) =>
    case Entity(b) =>
      var inner := b[..d - 1];
      assert Render(t)[..d] == "&" + inner;
      OneThenLacks("&", inner);
    case Tag(_, _, _) => InsideTag(t, d);
  }

  lemma InsideTag(t: Token, d: nat)
    requires ValidToken(t) && t.Tag? && 0 < d < |Render(t)|
    ensures RFind(Render(t)[..d], '<') == 0 && RFind(Render(t)[..d], '>') == -1
  {
    hide RFind, ValidToken;
    var r := Render(t);
    TagBody(t);
    hide Render;
    var inner, body := r[1..d], r[1..|r| - 1];
    forall j | 0 <= j < |inner| ensures inner[j] != '<' && inner[j] != '>' {
      assert inner[j] == body[j] && body[j] != '<' && body[j] != '>';
    }
    assert r[..d] == "<" + inner;
    OneThenLacks("<", inner);
  }

  lemma OneThenLacks(a: string, s: string)
    requires |a| == 1 && (a == "&" || a == "<")
    requires Lacks(s, '<') && Lacks(s, '>') && (a == "&" ==> Lacks(s, '&') && Lacks(s, ';'))
    ensures RFind(a + s, a[0]) == 0 && RFind(a + s, '>') == -1
    ensures a == "&" ==> RFind(a + s, '<') == -1 && RFind(a + s, ';') == -1
  {
    RFindConcat(a, s, a[0]); RFindConcat(a, s, '>');
    RFindLacks(s, '<'); RFindLacks(s, '>');
    if a == "&" {
      RFindConcat(a, s, '<'); RFindConcat(a, s, ';');
      RFindLacks(s, '&'); RFindLacks(s, ';');
    }
  }

  lemma TagBody(t: Token)
    requires ValidToken(t) && t.Tag?
    ensures var r := Render(t); Lacks(r[1..|r| - 1], '<') && Lacks(r[1..|r| - 1], '>') && r[0] == '<'
  {
    hide RFind;
    var r := Render(t);
    var p := |Lead(t.close)|;
    forall j | 1 <= j < |r| - 1 ensures r[j] != '<' && r[j] != '>' {
      if j < p { assert r[j] == '/'; }
      else if j < p + |t.name| { assert r[j] == t.name[j - p]; assert IsWord(r[j]); }
      else { assert r[j] == t.attrs[j - p - |t.name|]; }
    }
  }

  /** Stripping trailing white space removes whole tokens. */
  lemma {:induction false} StripTokens(h: Html) returns (a: Html, b: Html)
    ensures h == Append(a, b) && RStrip(Text(h)) == Text(a)
  {
    hide RStrip, Render, IsSpace;
    match h
    case End => a, b := End, End; assert RStrip("") == "";
    case Then(t, rest) =>
      var a', b' := StripTokens(rest);
      RStripConcat(Render(t), Text(rest));
      StripToken(t);
      if RStrip(Text(rest)) != "" || RStrip(Render(t)) != "" {
        a, b := Then(t, if RStrip(Text(rest)) != "" then a' else End),
                if RStrip(Text(rest)) != "" then b' else rest;
        assert Render(t) + "" == Render(t);
      } else {
        a, b := End, h;
      }
  }

  lemma StripToken(t: Token)
    ensures RStrip(Render(t)) == "" || RStrip(Render(t)) == Render(t)
  {
    var r := Render(t);
    match t
    case Plain(_) =>
    case Entity(b) => assert r[|r| - 1] == ';';
    case Tag(close, name, attrs) => assert r[|r| - 1] == '>';
  }

  // ---------------------------------------------------------------- closing

  function ClosingTokens(stack: seq<string>): Html {
    if stack == [] then End else Then(Tag(true, stack[|stack| - 1], ""), ClosingTokens(stack[..|stack| - 1]))
  }

  predicate IsName(s: string) { Lower(s) == s && ValidToken(Tag(true, s, "")) }

  predicate Names(stack: seq<string>) { forall i :: 0 <= i < |stack| ==> IsName(stack[i]) }

  lemma {:induction false} LowerFacts(s: string)
    ensures Lower(Lower(s)) == Lower(s)
    ensures AllWord(s) ==> AllWord(Lower(s))
    ensures s != "" && IsLetter(s[0]) ==> IsLetter(Lower(s)[0])
  {
    if s != "" {
      LowerFacts(s[1..]);
      assert Lower(s)[1..] == Lower(s[1..]);
      if AllWord(s) {
        assert AllWord(s[1..]);
        assert forall j :: 0 < j < |s| ==> Lower(s)[j] == Lower(s[1..])[j - 1];
        assert IsWord(s[0]);
      }
    }
  }

  lemma {:induction false} StackNames(h: Html, stack: seq<string>)
    requires Valid(h) && Walk(h, stack).Some? && Names(stack)
    ensures Names(Walk(h, stack).value)
    decreases h
  {
    hide IsName, Lower;
    match h
    case End =>
    case Then(t, rest) =>
      if !t.Tag? { StackNames(rest, stack); }
      else if !t.close { OpenName(t); StackNames(rest, stack + [Lower(t.name)]); }
      else { StackNames(rest, stack[..|stack| - 1]); }
  }

  lemma OpenName(t: Token)
    requires ValidToken(t) && t.Tag?
    ensures IsName(Lower(t.name))
  {
    LowerFacts(t.name);
  }

  /** The closing tags read back as tokens that empty the stack. */
  lemma {:induction false} ClosersClose(stack: seq<string>)
    requires Names(stack)
    ensures Text(ClosingTokens(stack)) == Closers(stack)
    ensures Valid(ClosingTokens(stack))
    ensures Walk(ClosingTokens(stack), stack) == Some([])
  {
    if stack != [] {
      hide Lower, ValidToken, Render;
      var top, below := stack[|stack| - 1], stack[..|stack| - 1];
      ClosersClose(below);
      CloseTagText(top);
      assert IsName(top);
    }
  }

  lemma CloseTagText(name: string)
    ensures Render(Tag(true, name, "")) == "</" + name + ">"
  {
  }

  function Dots(): Html { Then(Plain('.'), Then(Plain('.'), Then(Plain('.'), End))) }

  // ---------------------------------------------------------------- the theorem

  /** Clipping a well-nested text with complete entities gives a well-nested text again: a
      beginning of its tokens, three dots, and one closing tag per tag left open. */
  lemma ClipKeepsForm(h: Html, limit: nat) returns (kept: Html, dropped: Html, open: seq<string>)
    requires WellNested(h) && limit >= 3 && U16(Text(h)) > limit
    ensures h == Append(kept, dropped) && Walk(kept, []) == Some(open)
    ensures WellNested(Append(kept, Append(Dots(), ClosingTokens(open))))
    ensures Clipped(Text(h), true, limit) == Text(Append(kept, Append(Dots(), ClosingTokens(open))))
    ensures Unclosed(FindTags(Head(Text(h), true, limit)), []) == open
  {
    hide Text, Walk, Append, Valid, FindTags, U16, Closers, Unclosed, RStrip, Cut, Names, ClosingTokens, Dots;
    kept, dropped := CutTokens(h, limit - 3);
    AppendFacts(kept, dropped);
    WalkAppend(kept, dropped, []);
    open := Walk(kept, []).value;
    NoNames();
    StackNames(kept, []);
    Closing(kept, open);
    HeadTags(kept, open);
  }

  /** At every token boundary of the text the tags open there can be closed in 96 units. */
  ghost predicate ShallowTags(h: Html) {
    forall a, b :: h == Append(a, b) && Walk(a, []).Some? ==> CloserUnits(Walk(a, []).value) <= 96
  }

  /** A condition on the text itself: if its tags are never nested deeper than 96 units can close, what is
      left of it at the usual limit has at most 4096 units. */
  lemma ShallowTextFits(h: Html)
    requires WellNested(h) && ShallowTags(h)
    ensures U16(Clipped(Text(h), true, TG_MAX)) <= 4096
  {
    hide Text, Walk, Append, U16, Clipped, CloserUnits, Head, FindTags, Unclosed, Dots, ClosingTokens;
    if U16(Text(h)) > TG_MAX {
      var kept, dropped, open := ClipKeepsForm(h, TG_MAX);
      assert CloserUnits(open) <= 96;
    }
    HtmlFitsExactlyWhen(Text(h), TG_MAX);
  }

  /** The same, said of texts: clipping never breaks the markup. */
  ghost predicate IsWellNested(text: string) { exists h :: WellNested(h) && Text(h) == text }

  lemma ClipNeverBreaksMarkup(text: string, limit: nat)
    requires IsWellNested(text) && limit >= 3
    ensures IsWellNested(Clipped(text, true, limit))
  {
    hide Text, WellNested, U16, Append;
    if U16(text) > limit {
      var h :| WellNested(h) && Text(h) == text;
      var kept, dropped, open := ClipKeepsForm(h, limit);
    }
  }

  lemma NoNames()
    ensures Names([])
  {
  }

  /** What is kept of the text before the dots is the text of whole tokens. */
  lemma CutTokens(h: Html, room: nat) returns (a: Html, b: Html)
    requires Valid(h) && U16(Text(h)) > room
    ensures h == Append(a, b) && RStrip(Text(h)[..Cut(Text(h), true, room)]) == Text(a)
  {
    hide Text, RStrip, Outside, Fit, AtLine, U16, Append, Valid;
    var x, y := BackToBoundary(h, AtLine(Text(h), Fit(Text(h), room, room)));
    AppendFacts(x, y);
    SplitConcat(Text(x), Text(y));
    var b';
    a, b' := StripTokens(x);
    AppendAssoc(a, b', y);
    b := Append(b', y);
  }

  lemma {:induction false} AppendAssoc(a: Html, b: Html, c: Html)
    ensures Append(Append(a, b), c) == Append(a, Append(b, c))
  {
    match a case End => case Then(_, rest) => AppendAssoc(rest, b, c);
  }

  /** Dots and closing tags complete a strictly nested beginning. */
  lemma Closing(h: Html, open: seq<string>)
    requires Valid(h) && Walk(h, []) == Some(open) && Names(open)
    ensures WellNested(Append(h, Append(Dots(), ClosingTokens(open))))
    ensures Text(Append(h, Append(Dots(), ClosingTokens(open)))) == (Text(h) + "...") + Closers(open)
  {
    hide Text, Walk, Append, Valid, Closers, ClosingTokens, Names;
    var tail := ClosingTokens(open);
    ClosersClose(open);
    DotsAreDots(open);
    AppendFacts(Dots(), tail); AppendFacts(h, Append(Dots(), tail));
    WalkAppend(Dots(), tail, open); WalkAppend(h, Append(Dots(), tail), []);
    Assoc(Text(h), "...", Closers(open));
  }

  lemma DotsAreDots(stack: seq<string>)
    ensures Text(Dots()) == "..." && Valid(Dots()) && Walk(Dots(), stack) == Some(stack)
  {
    var one := Then(Plain('.'), End);
    var two := Then(Plain('.'), one);
    assert Text(one) == "." && Valid(one) && Walk(one, stack) == Some(stack);
    assert Text(two) == ".." && Valid(two) && Walk(two, stack) == Some(stack);
    assert Dots() == Then(Plain('.'), two);
  }

  lemma HeadTags(h: Html, open: seq<string>)
    requires Valid(h) && Walk(h, []) == Some(open)
    ensures Unclosed(FindTags(Text(h) + "..."), []) == open
  {
    hide Text, Walk, Valid;
    TagsAreRead(h, "...", []);
    SkipText("...", "");
    assert "..." + "" == "...";
    assert FindTags("") == [];
  }

  // ---------------------------------------------------------------- the reserve for closing tags can be too small

  /** A text of opening tags only. */
  function Bold(n: nat): Html { if n == 0 then End else Then(Tag(false, "b", ""), Bold(n - 1)) }

  function Repeat(n: nat): seq<string> { if n == 0 then [] else Repeat(n - 1) + ["b"] }

  lemma {:induction false} BoldFacts(n: nat)
    ensures Valid(Bold(n)) && |Text(Bold(n))| == 3 * n
    ensures forall j :: 0 <= j < 3 * n ==> Text(Bold(n))[j] == "<b>"[j % 3]
  {
    if n > 0 {
      BoldFacts(n - 1);
      BoldTag();
      hide ValidToken, Render;
      var rest := Text(Bold(n - 1));
      assert Text(Bold(n)) == "<b>" + rest;
      forall j | 0 <= j < 3 * n ensures ("<b>" + rest)[j] == "<b>"[j % 3] {
        if j >= 3 { assert (j - 3) % 3 == j % 3; }
      }
    }
  }

  lemma BoldTag()
    ensures ValidToken(Tag(false, "b", "")) && Render(Tag(false, "b", "")) == "<b>" && Lower("b") == "b"
  {
    RFindLacks("", '&'); RFindLacks("", ';');
    assert "b"[..0] == "" && "b"[1..] == "";
  }

  lemma {:induction false} BoldWalk(n: nat, stack: seq<string>)
    ensures Walk(Bold(n), stack) == Some(stack + Repeat(n))
  {
    if n == 0 {
      assert stack + [] == stack;
    } else {
      BoldTag();
      BoldWalk(n - 1, stack + ["b"]);
      RepeatFront(n);
      assert stack + ["b"] + Repeat(n - 1) == stack + Repeat(n);
    }
  }

  lemma {:induction false} RepeatFront(n: nat)
    requires n > 0
    ensures Repeat(n) == ["b"] + Repeat(n - 1)
  {
    if n > 1 { RepeatFront(n - 1); }
  }

  lemma {:induction false} RepeatUnits(n: nat)
    ensures CloserUnits(Repeat(n)) == 4 * n
  {
    if n > 0 {
      RepeatUnits(n - 1);
      assert Repeat(n)[..|Repeat(n)| - 1] == Repeat(n - 1);
      assert U16("b") == 1 by { assert "b"[..0] == ""; }
    }
  }

  lemma {:induction false} U16Short(s: string)
    requires forall j :: 0 <= j < |s| ==> s[j] as int < 0x1_0000
    ensures U16(s) == |s|
  {
    if s != "" { U16Short(s[..|s| - 1]); }
  }

  /** A cut right behind an opening bracket goes back in front of it. */
  lemma CutBeforeTag(text: string, whole: string)
    requires whole + "<" <= text && U16(text) > |whole| + 1 && U16(whole + "<") == |whole| + 1
    requires Lacks(whole, '\n') && Lacks(whole, '&') && Lacks(whole, ';')
    ensures Cut(text, true, |whole| + 1) == |whole|
  {
    hide U16;
    var room := |whole| + 1;
    assert text[..room] == whole + "<" && text[..|whole|] == whole;
    assert Take(text, room) == whole + "<";
    assert Fit(text, room, room) == room;
    LastBracket(whole);
    assert AtLine(text, room) == room;
    assert Outside(text, room, '<', '>') == |whole|;
    RFindLacks(whole, '&'); RFindLacks(whole, ';');
  }

  lemma LastBracket(whole: string)
    requires Lacks(whole, '\n')
    ensures RFind(whole + "<", '\n') == -1 && RFind(whole + "<", '<') == |whole| && RFind(whole + "<", '>') < |whole|
  {
    RFindLacks(whole + "<", '\n');
    assert (whole + "<")[|whole|] == '<' && (whole + "<")[..|whole|] == whole;
  }

  lemma BoldLacks(k: nat)
    ensures |Text(Bold(k))| == 3 * k
    ensures var w := Text(Bold(k));
      Lacks(w, '\n') && Lacks(w, '&') && Lacks(w, ';') && (k > 0 ==> w[3 * k - 1] == '>')
    ensures U16(Text(Bold(k))) == 3 * k && U16(Text(Bold(k)) + "<") == 3 * k + 1
  {
    BoldFacts(k);
    hide Bold, Text, U16;
    U16Short(Text(Bold(k)));
    U16Short(Text(Bold(k)) + "<");
  }

  lemma BoldPrefix(n: nat, k: nat)
    requires n > k + 1
    ensures Text(Bold(k)) + "<" <= Text(Bold(n))
  {
    BoldFacts(n);
    BoldFacts(k);
    hide Bold, Text;
    var text, part := Text(Bold(n)), Text(Bold(k)) + "<";
    forall j | 0 <= j < |part| ensures part[j] == text[j] {
      if j < 3 * k { assert part[j] == Text(Bold(k))[j]; }
    }
  }

  /** Where a long text of opening tags is cut: behind the last whole tag that fits. */
  lemma BoldHead(n: nat, k: nat)
    requires n > k + 1
    ensures var text, limit := Text(Bold(n)), 3 * k + 4;
      U16(text) > limit && Head(text, true, limit) == Text(Bold(k)) + "..."
  {
    hide Bold, Text, U16, Cut;
    BoldLacks(n);
    BoldLacks(k);
    BoldPrefix(n, k);
    var text, whole := Text(Bold(n)), Text(Bold(k));
    CutBeforeTag(text, whole);
    assert text[..3 * k] == whole;
    assert RStrip(whole) == whole;
  }

  /** A long text of opening tags: what fits of it, and a closing tag for each. */
  lemma TagsOverflow(n: nat, k: nat)
    requires n > k + 1
    ensures U16(Clipped(Text(Bold(n)), true, 3 * k + 4)) == 7 * k + 3
  {
    hide Bold, Text, Head, U16, Clipped, Walk, CloserUnits, Repeat;
    BoldHead(n, k);
    BoldFacts(k);
    BoldWalk(k, []);
    assert [] + Repeat(k) == Repeat(k);
    HeadTags(Bold(k), Repeat(k));
    RepeatUnits(k);
    HtmlFitsExactlyWhen(Text(Bold(n)), 3 * k + 4);
    BoldUnits(k);
  }

  /** The reserve is not always enough: 1334 opening tags or more are cut to 1332, whose closing tags
      make a message of more than twice 4096 units. */
  lemma ManyTagsOverflow(n: nat)
    requires n >= 1334
    ensures U16(Clipped(Text(Bold(n)), true, TG_MAX)) == 9327 > 4096
  {
    hide Bold, Text, U16, Clipped;
    TagsOverflow(n, 1332);
  }

  lemma BoldUnits(k: nat)
    ensures U16(Text(Bold(k)) + "...") == 3 * k + 3
  {
    BoldFacts(k);
    U16Short(Text(Bold(k)) + "...");
  }
}
