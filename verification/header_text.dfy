/** The portal's header text box (static/js/portal-console.js): parsing, printing,
    editing one header, and the copy that request history keeps. */
module HeaderText {
  import opened Common
  import opened Text

  datatype Header = Header(name: string, value: string)

  // ---- parsing and printing ----------------------------------------------

  function Lines(s: string): seq<string> {
    var k := IndexOf(s, '\n');
    if k == |s| then [s] else [s[..k]] + Lines(s[k + 1..])
  }

  /** A line without a colon, or without a name before it, is not a header. */
  function ParseLine(line: string): Option<Header> {
    var text := Trim(line);
    var k := IndexOf(text, ':');
    if text == "" || k == |text| then None
    else
      var name, value := Trim(text[..k]), Trim(text[k + 1..]);
      if name == "" then None else Some(Header(name, value))
  }

  function ParseLines(lines: seq<string>): seq<Header> {
    if lines == [] then []
    else
      match ParseLine(lines[0])
      case None => ParseLines(lines[1..])
      case Some(h) => [h] + ParseLines(lines[1..])
  }

  function Parse(raw: string): seq<Header> {
    ParseLines(Lines(raw))
  }

  function Print(h: Header): string {
    h.name + ": " + h.value
  }

  function Format(hs: seq<Header>): string {
    if |hs| == 0 then ""
    else if |hs| == 1 then Print(hs[0])
    else Print(hs[0]) + "\n" + Format(hs[1..])
  }

  // ---- parsing one line at a time ----------------------------------------

  lemma {:induction false} LinesJoin(a: string, b: string)
    ensures Lines(a + "\n" + b) == Lines(a) + Lines(b)
  {
    var k := IndexOf(a, '\n');
    if k == |a| {
      LinesFirst(a, b);
    } else {
      LinesJoin(a[k + 1..], b);
      LinesJoinStep(a, k, b);
    }
  }

  lemma LinesJoinStep(a: string, k: nat, b: string)
    requires k < |a| && IndexOf(a, '\n') == k
    requires Lines(a[k + 1..] + "\n" + b) == Lines(a[k + 1..]) + Lines(b)
    ensures Lines(a + "\n" + b) == Lines(a) + Lines(b)
  {
    var first, rest := a[..k], a[k + 1..];
    var whole := rest + "\n" + b;
    LinesFirst(first, whole);
    LinesFirst(first, rest);
    Regroup(a, first, rest, b);
    Associate([first], Lines(rest), Lines(b));
  }

  lemma Associate<T>(a: seq<T>, b: seq<T>, c: seq<T>)
    ensures a + (b + c) == (a + b) + c
  {
  }

  lemma Regroup(a: string, first: string, rest: string, b: string)
    requires |first| < |a| && first == a[..|first|] && rest == a[|first| + 1..] && a[|first|] == '\n'
    ensures a == first + "\n" + rest
    ensures a + "\n" + b == first + "\n" + (rest + "\n" + b)
  {
    assert a == first + "\n" + rest;
  }

  lemma LinesFirst(first: string, rest: string)
    requires '\n' !in first
    ensures Lines(first + "\n" + rest) == [first] + Lines(rest)
  {
    Cut(first, '\n', rest);
    FirstAt(first + "\n" + rest, '\n', |first|);
  }

  lemma {:induction false} ParseLinesJoin(a: seq<string>, b: seq<string>)
    ensures ParseLines(a + b) == ParseLines(a) + ParseLines(b)
  {
    hide ParseLine;
    if a == [] {
      assert a + b == b;
    } else {
      assert (a + b)[1..] == a[1..] + b;
      ParseLinesJoin(a[1..], b);
    }
  }

  lemma ParseJoin(a: string, b: string)
    ensures Parse(a + "\n" + b) == Parse(a) + Parse(b)
  {
    LinesJoin(a, b);
    ParseLinesJoin(Lines(a), Lines(b));
  }

  lemma ParseOneLine(line: string)
    requires '\n' !in line
    ensures Parse(line) == match ParseLine(line) case None => [] case Some(h) => [h]
  {
    hide ParseLine;
    assert Lines(line) == [line];
    assert [line][1..] == [];
    assert ParseLines([line][1..]) == [];
  }

  lemma ParseEmpty()
    ensures Parse("") == []
  {
    TrimTrimmed("");
    assert ParseLine("").None?;
    ParseOneLine("");
  }

  // ---- what a line means -------------------------------------------------

  lemma AllSpaceJoins(a: string, b: string)
    requires AllSpace(a) && AllSpace(b)
    ensures AllSpace(a + b)
  {
  }

  /** Blanks that are cut at one end do not matter to trimming. */
  lemma TrimWithin(before: string, s: string, after: string)
    requires AllSpace(before) && AllSpace(after)
    ensures Trim(before + s + after) == Trim(s)
  {
    hide AllSpace, IsSpace, Trim, Trimmed;
    var b, a := TrimSplits(s);
    TrimIsTrimmed(s);
    AllSpaceJoins(before, b);
    AllSpaceJoins(a, after);
    TrimAround(before + b, Trim(s), a + after);
    assert before + s + after == (before + b) + Trim(s) + (a + after);
  }

  lemma LeftCut(before: string) returns (cut: string)
    ensures before == cut + TrimLeft(before) && AllSpace(cut)
    ensures Trim(TrimLeft(before)) == Trim(before) && (TrimLeft(before) != "" ==> !IsSpace(TrimLeft(before)[0]))
  {
    hide AllSpace, IsSpace, Trim, TrimLeft;
    TrimLeftCuts(before);
    cut := before[..|before| - |TrimLeft(before)|];
    NoSpace();
    TrimWithin(cut, TrimLeft(before), "");
    assert cut + TrimLeft(before) + "" == before;
  }

  lemma RightCut(after: string) returns (cut: string)
    ensures after == TrimRight(after) + cut && AllSpace(cut)
    ensures Trim(TrimRight(after)) == Trim(after)
    ensures TrimRight(after) != "" ==> !IsSpace(TrimRight(after)[|TrimRight(after)| - 1])
  {
    hide AllSpace, IsSpace, Trim, TrimRight;
    TrimRightCuts(after);
    cut := after[|TrimRight(after)|..];
    NoSpace();
    TrimWithin("", TrimRight(after), cut);
    assert "" + TrimRight(after) + cut == after;
  }

  /** The text without the blanks around it: what is before the colon keeps its end, what
      is after it keeps its start. */
  lemma TrimAtColon(before: string, after: string)
    requires ':' !in before
    ensures Trim(before + ":" + after) == TrimLeft(before) + ":" + TrimRight(after)
    ensures Trim(TrimLeft(before)) == Trim(before) && Trim(TrimRight(after)) == Trim(after)
    ensures ':' !in TrimLeft(before)
  {
    hide AllSpace, Trim, TrimLeft, TrimRight, IsSpace, Trimmed;
    var l, r := TrimLeft(before), TrimRight(after);
    var left := LeftCut(before);
    var right := RightCut(after);
    ColonTrimmed(l, r);
    TrimAround(left, l + ":" + r, right);
    assert before + ":" + after == left + (l + ":" + r) + right;
    assert forall i :: 0 <= i < |l| ==> l[i] == before[|left| + i];
  }

  lemma ColonTrimmed(l: string, r: string)
    requires (l != "" ==> !IsSpace(l[0])) && (r != "" ==> !IsSpace(r[|r| - 1]))
    ensures Trimmed(l + ":" + r)
  {
    var s := l + ":" + r;
    assert s[0] == if l == "" then ':' else l[0];
    assert s[|s| - 1] == if r == "" then ':' else r[|r| - 1];
  }

  lemma NoSpace()
    ensures AllSpace("")
  {
  }

  /** WHAT A LINE MEANS. With a colon it is the header of the trimmed texts before and after
      the first one, unless the name would be empty; without a colon it is nothing. The
      lines of a text are read one after the other (`ParseJoin`). */
  lemma LineMeans(before: string, after: string)
    requires '\n' !in before && '\n' !in after && ':' !in before
    ensures Parse(before + ":" + after) == if Trim(before) == "" then [] else [Header(Trim(before), Trim(after))]
    ensures Parse(before) == []
  {
    hide Parse, Trim, TrimLeft, TrimRight;
    var line, l, r := before + ":" + after, TrimLeft(before), TrimRight(after);
    ParseOneLine(line);
    TrimAtColon(before, after);
    Cut(l, ':', r);
    FirstAt(l + ":" + r, ':', |l|);
    ParseOneLine(before);
    if ':' in Trim(before) {
      TrimKeepsChars(before, ':');
    }
  }

  // ---- what parsing yields -----------------------------------------------

  /** A header that survives printing: trimmed parts, no colon in the name, no
      line break anywhere. */
  predicate Clean(h: Header) {
    && h.name != "" && Trimmed(h.name) && ':' !in h.name && '\n' !in h.name
    && Trimmed(h.value) && '\n' !in h.value
  }

  predicate AllClean(hs: seq<Header>) {
    forall i :: 0 <= i < |hs| ==> Clean(hs[i])
  }

  lemma ParseLineClean(line: string)
    requires '\n' !in line && ParseLine(line).Some?
    ensures Clean(ParseLine(line).value)
  {
    hide Trim, IsSpace, Trimmed;
    var text := Trim(line);
    var k := IndexOf(text, ':');
    TrimIsTrimmed(text[..k]);
    TrimIsTrimmed(text[k + 1..]);
    if '\n' in text { TrimKeepsChars(line, '\n'); }
    if '\n' in Trim(text[..k]) { TrimKeepsChars(text[..k], '\n'); }
    if ':' in Trim(text[..k]) { TrimKeepsChars(text[..k], ':'); }
    if '\n' in Trim(text[k + 1..]) { TrimKeepsChars(text[k + 1..], '\n'); }
  }

  lemma TrimIsTrimmed(s: string)
    ensures Trimmed(Trim(s))
  {
  }

  lemma {:induction false} LinesHaveNoBreaks(s: string)
    ensures forall i :: 0 <= i < |Lines(s)| ==> '\n' !in Lines(s)[i]
  {
    var k := IndexOf(s, '\n');
    if k < |s| {
      LinesHaveNoBreaks(s[k + 1..]);
    }
  }

  lemma {:induction false} ParseLinesClean(lines: seq<string>)
    requires forall i :: 0 <= i < |lines| ==> '\n' !in lines[i]
    ensures AllClean(ParseLines(lines))
  {
    hide ParseLine, Clean;
    if lines != [] {
      ParseLinesClean(lines[1..]);
      if ParseLine(lines[0]).Some? {
        ParseLineClean(lines[0]);
      }
    }
  }

  lemma ParseClean(raw: string)
    ensures AllClean(Parse(raw))
  {
    LinesHaveNoBreaks(raw);
    ParseLinesClean(Lines(raw));
  }

  // ---- the round trip ----------------------------------------------------

  /** Printing and parsing header lists goes part by part. */
  lemma {:induction false} ParseFormatJoin(xs: seq<Header>, ys: seq<Header>)
    ensures Parse(Format(xs + ys)) == Parse(Format(xs)) + Parse(Format(ys))
  {
    hide Parse;
    ParseEmpty();
    if xs == [] {
      assert xs + ys == ys;
    } else if |xs| == 1 {
      if ys == [] {
        assert xs + ys == xs;
      } else {
        assert (xs + ys)[1..] == ys;
        ParseJoin(Print(xs[0]), Format(ys));
      }
    } else {
      assert (xs + ys)[1..] == xs[1..] + ys;
      ParseFormatJoin(xs[1..], ys);
      ParseJoin(Print(xs[0]), Format(xs[1..] + ys));
      ParseJoin(Print(xs[0]), Format(xs[1..]));
    }
  }

  /** A one-line text `name: value`, with blanks after it, is that header. */
  lemma ParsePrinted(name: string, value: string, blanks: string)
    requires name != "" && Trimmed(name) && ':' !in name && AllSpace(blanks)
    requires value == "" || !IsSpace(value[|value| - 1])
    ensures ParseLine(name + ": " + value + blanks) == Some(Header(name, Trim(value)))
  {
    hide IsSpace, Trim, Trimmed, AllSpace;
    var rest := if value == "" then "" else " " + value;
    if value == "" {
      PrintedEmpty(name, blanks);
      assert name + ": " + "" + blanks == name + ": " + blanks;
    } else {
      PrintedValue(name, value, blanks);
    }
    Cut(name, ':', rest);
    FirstAt(name + ":" + rest, ':', |name|);
    TrimTrimmed(name);
  }

  lemma PrintedEmpty(name: string, blanks: string)
    requires name != "" && Trimmed(name) && AllSpace(blanks)
    ensures Trim(name + ": " + blanks) == name + ":" + ""
  {
    hide Trim;
    var text := name + ":";
    assert text + "" == text;
    assert name + ": " + blanks == "" + text + (" " + blanks);
    TrimAround("", text, " " + blanks);
  }

  lemma PrintedValue(name: string, value: string, blanks: string)
    requires name != "" && Trimmed(name) && AllSpace(blanks)
    requires value != "" && !IsSpace(value[|value| - 1])
    ensures Trim(name + ": " + value + blanks) == name + ":" + (" " + value)
    ensures Trim(" " + value) == Trim(value)
  {
    var text := name + ":" + (" " + value);
    BlankBefore(value);
    hide Trim;
    assert name + ": " + value + blanks == "" + text + blanks;
    assert text[|text| - 1] == value[|value| - 1];
    assert text[0] == name[0];
    TrimAround("", text, blanks);
  }

  lemma BlankBefore(value: string)
    ensures Trim(" " + value) == Trim(value)
  {
    assert (" " + value)[1..] == value;
  }

  lemma CleanPrints(h: Header)
    requires Clean(h)
    ensures '\n' !in Print(h) && h.name + ": " + h.value + "" == Print(h) && Format([h]) == Print(h)
    ensures h.value == "" || !IsSpace(h.value[|h.value| - 1])
  {
  }

  lemma ParseFormatOne(h: Header)
    requires Clean(h)
    ensures Parse(Format([h])) == [h]
  {
    CleanPrints(h);
    hide ParseLine, Trim, Trimmed, IsSpace, Lines;
    ParsePrinted(h.name, h.value, "");
    TrimTrimmed(h.value);
    ParseOneLine(Print(h));
  }

  lemma {:induction false} ParseFormat(hs: seq<Header>)
    requires AllClean(hs)
    ensures Parse(Format(hs)) == hs
  {
    hide Parse, Clean, Print;
    if hs == [] {
      ParseEmpty();
    } else {
      assert hs == [hs[0]] + hs[1..];
      ParseFormatJoin([hs[0]], hs[1..]);
      ParseFormatOne(hs[0]);
      ParseFormat(hs[1..]);
    }
  }

  /** ROUND TRIP: printing what was parsed and parsing it again changes nothing. */
  lemma RoundTrip(raw: string)
    ensures Parse(Format(Parse(raw))) == Parse(raw)
  {
    ParseClean(raw);
    ParseFormat(Parse(raw));
  }

  // ---- editing one header ------------------------------------------------

  predicate Named(h: Header, target: string) {
    ToLower(h.name) == ToLower(target)
  }

  function Without(hs: seq<Header>, target: string): seq<Header> {
    if hs == [] then []
    else
      var n := |hs| - 1;
      Without(hs[..n], target) + if Named(hs[n], target) then [] else [hs[n]]
  }

  function FirstNamed(hs: seq<Header>, target: string): (k: nat)
    ensures k <= |hs|
    ensures forall i :: 0 <= i < k ==> !Named(hs[i], target)
    ensures k < |hs| ==> Named(hs[k], target)
  {
    if hs == [] || Named(hs[0], target) then 0 else 1 + FirstNamed(hs[1..], target)
  }

  /** The new header in place of the first of its name, the others of that name
      dropped; at the end if there was none. */
  function Upserted(hs: seq<Header>, target: string, value: string): seq<Header> {
    var k := FirstNamed(hs, target);
    hs[..k] + [Header(target, value)] + Without(hs[k..], target)
  }

  lemma {:induction false} WithoutJoin(xs: seq<Header>, ys: seq<Header>, target: string)
    ensures Without(xs + ys, target) == Without(xs, target) + Without(ys, target)
  {
    hide Named;
    if ys == [] {
      assert xs + ys == xs;
    } else {
      var n := |ys| - 1;
      assert (xs + ys)[..|xs| + n] == xs + ys[..n];
      WithoutJoin(xs, ys[..n], target);
    }
  }

  lemma {:induction false} WithoutMembers(hs: seq<Header>, target: string)
    ensures forall h :: h in Without(hs, target) <==> h in hs && !Named(h, target)
  {
    hide Named;
    if hs != [] {
      var n := |hs| - 1;
      WithoutMembers(hs[..n], target);
      assert hs == hs[..n] + [hs[n]];
      var most, some := Without(hs[..n], target), Without(hs, target);
      assert forall h :: h in some <==> h in most || (h == hs[n] && !Named(h, target));
    }
  }

  lemma {:induction false} WithoutLength(hs: seq<Header>, target: string)
    ensures |Without(hs, target)| <= |hs|
    ensures |Without(hs, target)| == |hs| ==> forall i :: 0 <= i < |hs| ==> !Named(hs[i], target)
  {
    hide Named;
    if hs != [] {
      var n := |hs| - 1;
      WithoutLength(hs[..n], target);
      if |Without(hs, target)| == |hs| {
        assert forall i :: 0 <= i < n ==> hs[i] == hs[..n][i];
      }
    }
  }

  lemma {:induction false} WithoutNone(hs: seq<Header>, target: string)
    requires forall h :: h in hs ==> !Named(h, target)
    ensures Without(hs, target) == hs
  {
    hide Named;
    if hs != [] {
      var n := |hs| - 1;
      WithoutNone(hs[..n], target);
      assert hs == hs[..n] + [hs[n]];
    }
  }

  /** ONE HEADER OF THAT NAME. After an upsert there is exactly one header of that
      name in any letter case, and the others are what they were, in order. */
  lemma UpsertMeaning(hs: seq<Header>, target: string, value: string)
    ensures Without(Upserted(hs, target, value), target) == Without(hs, target)
    ensures forall i :: 0 <= i < |Upserted(hs, target, value)| ==>
              (Named(Upserted(hs, target, value)[i], target) <==> i == FirstNamed(hs, target))
    ensures Upserted(hs, target, value)[FirstNamed(hs, target)] == Header(target, value)
  {
    var k, h := FirstNamed(hs, target), Header(target, value);
    assert Named(h, target);
    assert hs == hs[..k] + hs[k..];
    WithoutPieces(hs[..k], hs[k..], h, target);
    WithoutMembers(hs[k..], target);
    OnlyAt(hs[..k], h, Without(hs[k..], target), target);
  }

  lemma WithoutPieces(pre: seq<Header>, rest: seq<Header>, h: Header, target: string)
    requires Named(h, target)
    ensures Without(pre + [h] + Without(rest, target), target) == Without(pre + rest, target)
  {
    hide Named;
    var tail := Without(rest, target);
    WithoutTwice(rest, target);
    WithoutOne(h, target);
    WithoutJoin(pre + [h], tail, target);
    WithoutJoin(pre, [h], target);
    WithoutJoin(pre, rest, target);
  }

  lemma WithoutTwice(hs: seq<Header>, target: string)
    ensures Without(Without(hs, target), target) == Without(hs, target)
  {
    hide Named;
    WithoutMembers(hs, target);
    WithoutNone(Without(hs, target), target);
  }

  lemma WithoutOne(h: Header, target: string)
    requires Named(h, target)
    ensures Without([h], target) == []
  {
    hide Named;
    assert [h][..0] == [];
  }

  lemma OnlyAt(pre: seq<Header>, h: Header, tail: seq<Header>, target: string)
    requires Named(h, target) && forall i :: 0 <= i < |pre| ==> !Named(pre[i], target)
    requires forall x :: x in tail ==> !Named(x, target)
    ensures forall i :: 0 <= i < |pre + [h] + tail| ==> (Named((pre + [h] + tail)[i], target) <==> i == |pre|)
  {
    hide Named;
    forall i | 0 <= i < |tail| ensures !Named(tail[i], target) {
      assert tail[i] in tail;
    }
  }

  /** The guard under which the edited text says what was meant. */
  predicate Printable(target: string, value: string) {
    ':' !in target && '\n' !in target && '\n' !in TrimRight(value)
  }

  /** A line break within the blanks at the end is harmless. */
  lemma ParseBlankTail(line: string, blanks: string)
    requires '\n' !in line && AllSpace(blanks)
    ensures exists b :: AllSpace(b) && '\n' !in b && Parse(line + blanks) == Parse(line + b)
  {
    hide Parse, IsSpace;
    var k := IndexOf(blanks, '\n');
    if k < |blanks| {
      var b, rest := blanks[..k], blanks[k + 1..];
      assert blanks == b + "\n" + rest;
      assert line + blanks == (line + b) + "\n" + rest;
      ParseJoin(line + b, rest);
      BlankParsesToNothing(rest);
    }
  }

  lemma BlankLine(blanks: string)
    requires AllSpace(blanks)
    ensures ParseLine(blanks) == None
  {
    TrimBlank(blanks);
  }

  lemma {:induction false} BlankParsesToNothing(blanks: string)
    requires AllSpace(blanks)
    ensures Parse(blanks) == []
  {
    hide Parse, ParseLine, IsSpace;
    var k := IndexOf(blanks, '\n');
    BlankLine(blanks[..k]);
    ParseOneLine(blanks[..k]);
    if k == |blanks| {
      assert blanks[..k] == blanks;
    } else {
      assert blanks == blanks[..k] + "\n" + blanks[k + 1..];
      ParseJoin(blanks[..k], blanks[k + 1..]);
      BlankParsesToNothing(blanks[k + 1..]);
    }
  }

  lemma TrimRightDropsBlanks(value: string)
    ensures Trim(TrimRight(value)) == Trim(value)
  {
    hide Trim, Trimmed, IsSpace;
    var v := TrimRight(value);
    TrimRightCuts(value);
    var before, after := TrimSplits(v);
    BlanksAround(value, v, before, Trim(v), after);
  }

  lemma BlanksAround(value: string, v: string, before: string, core: string, after: string)
    requires |v| <= |value| && v == value[..|v|] && AllSpace(value[|v|..])
    requires v == before + core + after && AllSpace(before) && AllSpace(after) && Trimmed(core)
    ensures Trim(value) == core
  {
    hide Trim, Trimmed, IsSpace;
    var blanks := value[|v|..];
    assert value == v + blanks;
    assert value == before + core + (after + blanks);
    TrimAround(before, core, after + blanks);
  }

  lemma PrintableParses(target: string, value: string)
    requires target != "" && Trimmed(target) && Printable(target, value)
    ensures Parse(Print(Header(target, value))) == [Header(target, Trim(value))]
  {
    hide Trim, TrimRight, IsSpace, ParseLine, Parse;
    var v := TrimRight(value);
    TrimRightCuts(value);
    TrimRightDropsBlanks(value);
    var line, blanks := target + ": " + v, value[|v|..];
    assert Print(Header(target, value)) == line + blanks;
    ParseBlankTail(line, blanks);
    var b :| AllSpace(b) && '\n' !in b && Parse(line + blanks) == Parse(line + b);
    ParsePrinted(target, v, b);
    ParseOneLine(line + b);
  }

  lemma UnprintableParses(target: string, value: string)
    requires target != "" && Trimmed(target) && !Printable(target, value)
    ensures Parse(Print(Header(target, value))) != [Header(target, Trim(value))]
  {
    hide Trim, TrimRight, IsSpace, ParseLine, Parse;
    var text, meant := Print(Header(target, value)), Header(target, Trim(value));
    if ':' in target || '\n' in target || '\n' in Trim(value) {
      ParseClean(text);
      NotOnlyUnclean(Parse(text), meant);
    } else {
      BreakInLead(value);
      ParsesToBlank(target, value);
    }
  }

  lemma ParsesToBlank(target: string, value: string)
    requires target != "" && Trimmed(target) && ':' !in target && '\n' !in target
    requires '\n' in value && AllSpace(value[..IndexOf(value, '\n')])
    ensures Parse(Print(Header(target, value))) != [] && Parse(Print(Header(target, value)))[0] == Header(target, "")
  {
    hide Trim, IsSpace, ParseLine, Parse, Trimmed, AllSpace;
    var k := IndexOf(value, '\n');
    var first, rest := target + ": " + value[..k], value[k + 1..];
    PrintBroken(target, value, k);
    ParseJoin(first, rest);
    PrintedBlank(target, value[..k]);
    ParseOneLine(first);
  }

  lemma PrintBroken(target: string, value: string, k: nat)
    requires k < |value| && value[k] == '\n' && '\n' !in target && '\n' !in value[..k]
    ensures Print(Header(target, value)) == (target + ": " + value[..k]) + "\n" + value[k + 1..]
    ensures '\n' !in target + ": " + value[..k]
  {
    assert value == value[..k] + "\n" + value[k + 1..];
  }

  lemma NotOnlyUnclean(hs: seq<Header>, h: Header)
    requires AllClean(hs) && !Clean(h)
    ensures hs != [h]
  {
    hide Clean;
    assert forall x :: x in hs ==> Clean(x);
    assert h in [h];
  }

  lemma PrintedBlank(target: string, blanks: string)
    requires target != "" && Trimmed(target) && ':' !in target && AllSpace(blanks)
    ensures ParseLine(target + ": " + blanks) == Some(Header(target, ""))
  {
    hide ParseLine, IsSpace, Trim, AllSpace;
    TrimTrimmed("");
    ParsePrinted(target, "", blanks);
    assert target + ": " + "" + blanks == target + ": " + blanks;
  }

  /** If trimming on the right leaves a line break that trimming on both sides does
      not, the break is among the leading blanks of a non-blank value. */
  lemma BreakInLead(value: string)
    requires '\n' in TrimRight(value) && '\n' !in Trim(value)
    ensures '\n' in value && AllSpace(value[..IndexOf(value, '\n')]) && Trim(value) != ""
  {
    hide Trim, TrimRight, IsSpace;
    var v := TrimRight(value);
    TrimRightCuts(value);
    TrimRightDropsBlanks(value);
    var lead := LeadOf(v);
    assert '\n' in lead;
    var j :| 0 <= j < |lead| && lead[j] == '\n';
    assert value[j] == v[j] == '\n';
    var k := IndexOf(value, '\n');
    assert value[..k] == lead[..k];
  }

  lemma LeadOf(v: string) returns (lead: string)
    requires v != "" && !IsSpace(v[|v| - 1])
    ensures v == lead + Trim(v) && AllSpace(lead) && Trim(v) != ""
  {
    hide IsSpace, TrimLeft, TrimRight;
    var r := TrimLeft(v);
    TrimLeftCuts(v);
    lead := v[..|v| - |r|];
    assert v[..|v|] == v && !AllSpace(v);
    assert r[|r| - 1] == v[|v| - 1];
    RightStays(r);
    TrimIsBoth(v);
  }

  lemma RightStays(r: string)
    requires r != "" && !IsSpace(r[|r| - 1])
    ensures TrimRight(r) == r
  {
  }

  lemma TrimIsBoth(v: string)
    ensures Trim(v) == TrimRight(TrimLeft(v))
  {
    hide TrimLeft, TrimRight;
  }

  lemma SameMiddle<T>(a: seq<T>, x: seq<T>, y: seq<T>, b: seq<T>)
    ensures a + x + b == a + y + b <==> x == y
  {
    if a + x + b == a + y + b {
      assert |x| == |y|;
      assert x == (a + x + b)[|a|..|a| + |x|];
      assert y == (a + y + b)[|a|..|a| + |y|];
    }
  }

  /** EDITING THE TEXT. The text after an upsert parses to the intended headers if and
      only if the name has no colon or line break and the value has no line break
      before its trailing blanks. */
  lemma UpsertParses(raw: string, target: string, value: string)
    requires target != "" && Trimmed(target)
    ensures Parse(Format(Upserted(Parse(raw), target, value))) == Upserted(Parse(raw), target, Trim(value))
            <==> Printable(target, value)
  {
    hide Parse, Trim, Printable, Format, Print, FirstNamed;
    var hs := Parse(raw);
    var k := FirstNamed(hs, target);
    var pre, post := hs[..k], Without(hs[k..], target);
    ParseClean(raw);
    WithoutMembers(hs[k..], target);
    assert AllClean(pre);
    assert AllClean(post) by {
      forall i | 0 <= i < |post| ensures Clean(post[i]) {
        assert post[i] in post;
      }
    }
    var edited := Header(target, value);
    ParseFormatJoin(pre + [edited], post);
    ParseFormatJoin(pre, [edited]);
    ParseFormat(pre);
    ParseFormat(post);
    FormatOne(edited);
    SameMiddle(pre, Parse(Print(edited)), [Header(target, Trim(value))], post);
    if Printable(target, value) {
      PrintableParses(target, value);
    } else {
      UnprintableParses(target, value);
    }
  }

  lemma FormatOne(h: Header)
    ensures Format([h]) == Print(h)
  {
  }

  /** Removing a header by name removes exactly the headers of that name. */
  lemma RemoveParses(raw: string, target: string)
    ensures Parse(Format(Without(Parse(raw), target))) == Without(Parse(raw), target)
  {
    hide Parse, Clean, Named;
    var hs := Parse(raw);
    ParseClean(raw);
    WithoutMembers(hs, target);
    forall i | 0 <= i < |Without(hs, target)| ensures Clean(Without(hs, target)[i]) {
      assert Without(hs, target)[i] in Without(hs, target);
    }
    ParseFormat(Without(hs, target));
  }
}
