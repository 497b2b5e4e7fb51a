/**
 * The event summary pattern
 *
 *     ^(\d)([A-Z0-9]+)/(.+)\[(\d+)\]([A-Z+]) (.*)\((.*)\)$
 *
 * as Python's `re.match` applies it: anchored at the start, greedy groups with
 * backtracking, `.` not matching a newline and `$` also matching just before
 * one final newline.
 */
module Summary {
  import opened Wrappers
  import opened Text

  /** The seven groups of a successful match, in pattern order. */
  datatype SummaryMatch = SummaryMatch(
    part: string,       // group 1
    paper: string,      // group 2
    name: string,       // group 3
    week: string,       // group 4
    eventType: string,  // group 5
    staff: string,      // group 6
    location: string)   // group 7

  /** Groups 4 to 7: what follows the series name. */
  datatype Tail = Tail(week: string, eventType: string, staff: string, location: string)

  function TailOf(m: SummaryMatch): Tail {
    Tail(m.week, m.eventType, m.staff, m.location)
  }

  /** `[<week>]<type> <staff>(<location>)` */
  function RenderTail(t: Tail): string {
    "[" + t.week + "]" + t.eventType + " " + t.staff + "(" + t.location + ")"
  }

  /** The summary text whose groups are exactly `m`'s. */
  function Render(m: SummaryMatch): string {
    m.part + m.paper + "/" + m.name + RenderTail(TailOf(m))
  }

  predicate NoNewline(s: string) { '\n' !in s }

  /** The character classes and repetition counts of groups 4 to 7. */
  predicate ValidTail(t: Tail) {
    && |t.week| > 0 && AllDigits(t.week)
    && |t.eventType| == 1 && IsTypeChar(t.eventType[0])
    && NoNewline(t.staff) && NoNewline(t.location)
  }

  /** Every group satisfies its sub-pattern. */
  predicate Conforms(m: SummaryMatch) {
    && |m.part| == 1 && IsDigit(m.part[0])
    && |m.paper| > 0 && AllPaperChars(m.paper)
    && |m.name| > 0 && NoNewline(m.name)
    && ValidTail(TailOf(m))
  }

  /** The text `$` anchors against: one final newline may follow the match. */
  function Body(s: string): (b: string)
    ensures |b| <= |s| && b == s[..|b|]
  {
    if |s| > 0 && s[|s| - 1] == '\n' then s[..|s| - 1] else s
  }

  /** End of the maximal run of digits starting at `i` (greedy `\d+`). */
  function DigitRunEnd(s: string, i: nat): (r: nat)
    requires i <= |s|
    ensures i <= r <= |s|
    ensures forall j :: i <= j < r ==> IsDigit(s[j])
    ensures r == |s| || !IsDigit(s[r])
    decreases |s| - i
  {
    if i < |s| && IsDigit(s[i]) then DigitRunEnd(s, i + 1) else i
  }

  /** End of the maximal run of paper characters starting at `i` (greedy `[A-Z0-9]+`). */
  function PaperRunEnd(s: string, i: nat): (r: nat)
    requires i <= |s|
    ensures i <= r <= |s|
    ensures forall j :: i <= j < r ==> IsPaperChar(s[j])
    ensures r == |s| || !IsPaperChar(s[r])
    decreases |s| - i
  {
    if i < |s| && IsPaperChar(s[i]) then PaperRunEnd(s, i + 1) else i
  }

  /** Index of the last `(`: where greedy `(.*)\(` stops. */
  function LastOpenParen(s: string): (r: Option<nat>)
    ensures r.Some? ==> r.value < |s| && s[r.value] == '('
    ensures r.Some? ==> forall j :: r.value < j < |s| ==> s[j] != '('
    ensures r.None? <==> '(' !in s
  {
    if |s| == 0 then None
    else if s[|s| - 1] == '(' then Some(|s| - 1)
    else
      assert s == s[..|s| - 1] + [s[|s| - 1]];
      LastOpenParen(s[..|s| - 1])
  }

  /** Matches `(.*)\((.*)\)` against the whole of `s`: staff and location. */
  function SplitStaffLocation(s: string): (r: Option<(string, string)>)
    ensures r.Some? ==> s == r.value.0 + "(" + r.value.1 + ")"
    ensures r.Some? ==> '(' !in r.value.1
    ensures r.None? <==> |s| == 0 || s[|s| - 1] != ')' || '(' !in s[..|s| - 1]
  {
    if |s| == 0 || s[|s| - 1] != ')' then None
    else
      match LastOpenParen(s)
      case None => None
      case Some(p) =>
        assert s == s[..p] + "(" + s[p + 1..|s| - 1] + ")";
        assert forall j :: p + 1 <= j < |s| - 1 ==> s[p + 1..|s| - 1][j - p - 1] == s[j];
        assert s[..|s| - 1][p] == '(';
        Some((s[..p], s[p + 1..|s| - 1]))
  }

  /**
   * Matches `\[(\d+)\]([A-Z+]) (.*)\((.*)\)` against the whole of `t`
   * (newlines are excluded by the caller).
   */
  function SplitTail(t: string): (r: Option<Tail>)
    ensures r.Some? ==> RenderTail(r.value) == t
    ensures r.Some? ==> |r.value.week| > 0 && AllDigits(r.value.week)
    ensures r.Some? ==> |r.value.eventType| == 1 && IsTypeChar(r.value.eventType[0])
    ensures r.Some? ==> '(' !in r.value.location
  {
    if |t| == 0 || t[0] != '[' then None
    else
      var de := DigitRunEnd(t, 1);
      if de == 1 || de + 3 > |t| || t[de] != ']' || !IsTypeChar(t[de + 1]) || t[de + 2] != ' ' then None
      else
        match SplitStaffLocation(t[de + 3..])
        case None => None
        case Some((staff, location)) =>
          TailPieces(t, de, staff, location);
          Some(Tail(t[1..de], [t[de + 1]], staff, location))
  }

  lemma TailPieces(t: string, de: nat, staff: string, location: string)
    requires 1 < de && de + 3 <= |t| && t[0] == '[' && t[de] == ']' && IsTypeChar(t[de + 1]) && t[de + 2] == ' '
    requires forall j :: 1 <= j < de ==> IsDigit(t[j])
    requires t[de + 3..] == staff + "(" + location + ")"
    ensures RenderTail(Tail(t[1..de], [t[de + 1]], staff, location)) == t
    ensures AllDigits(t[1..de])
  {
    assert t == "[" + t[1..de] + "]" + [t[de + 1]] + " " + t[de + 3..];
  }

  lemma SplitTailHasOpenParen(t: string)
    requires SplitTail(t).Some?
    ensures '(' in t
  {
    var tl := SplitTail(t).value;
    var pre := "[" + tl.week + "]" + tl.eventType + " " + tl.staff;
    assert t == pre + "(" + tl.location + ")";
    assert t[|pre|] == '(';
  }

  /** `b[k]` can be the `[` that closes a series name starting before it. */
  predicate NameEndOk(b: string, k: nat) {
    k < |b| && b[k] == '[' && SplitTail(b[k..]).Some?
  }

  /**
   * Backtracking over the end of a greedy group: the largest `k` in `[lo, hi)`
   * with `ok(k)`, tried from the longest candidate down.
   */
  function LastSatisfying(ok: nat -> bool, lo: nat, hi: nat): (r: Option<nat>)
    requires lo <= hi
    ensures r.Some? ==> lo <= r.value < hi && ok(r.value)
    ensures r.Some? ==> forall j: nat :: r.value < j < hi ==> !ok(j)
    ensures r.None? ==> forall j: nat :: lo <= j < hi ==> !ok(j)
    decreases hi - lo
  {
    if hi == lo then None
    else if ok(hi - 1) then Some(hi - 1)
    else LastSatisfying(ok, lo, hi - 1)
  }

  /** Where greedy `(.+)` ends the series name: the last `[` in `[lo, hi)` after which the rest matches. */
  function FindNameEnd(b: string, lo: nat, hi: nat): (r: Option<nat>)
    requires lo <= hi <= |b|
    ensures r.Some? ==> lo <= r.value < hi && NameEndOk(b, r.value)
    ensures r.Some? ==> forall j: nat :: r.value < j < hi ==> !NameEndOk(b, j)
    ensures r.None? ==> forall j: nat :: lo <= j < hi ==> !NameEndOk(b, j)
  {
    var ok := (j: nat) => NameEndOk(b, j);
    assert forall j: nat :: ok(j) == NameEndOk(b, j);
    LastSatisfying(ok, lo, hi)
  }

  lemma MatchPieces(b: string, pe: nat, k: nat)
    requires 1 <= pe < k <= |b| && b[pe] == '/'
    ensures b == b[..1] + b[1..pe] + "/" + b[pe + 1..k] + b[k..]
  {
  }

  lemma NoNewlineInSlices(b: string, i: nat, j: nat)
    requires i <= j <= |b| && '\n' !in b
    ensures '\n' !in b[i..j]
  {
    assert forall x :: 0 <= x < j - i ==> b[i..j][x] == b[i + x];
  }

  /** `ICAL_SUMMARY_PATTERN.match(s)`: the groups, or None when the summary does not match. */
  function MatchSummary(s: string): (r: Option<SummaryMatch>)
    ensures r.Some? ==> Conforms(r.value) && Render(r.value) == Body(s)
    ensures r.Some? ==> '(' !in r.value.location
  {
    MatchBody(Body(s))
  }

  /** The pattern without its `$`, matched against the whole of `b`. */
  function MatchBody(b: string): (r: Option<SummaryMatch>)
    ensures r.Some? ==> Conforms(r.value) && Render(r.value) == b
    ensures r.Some? ==> '(' !in r.value.location
  {
    if |b| == 0 || '\n' in b || !IsDigit(b[0]) then None
    else
      var pe := PaperRunEnd(b, 1);
      if pe == 1 || pe + 2 > |b| || b[pe] != '/' then None
      else
        match FindNameEnd(b, pe + 2, |b|)
        case None => None
        case Some(k) =>
          GroupsAtSound(b, pe, k);
          Some(GroupsAt(b, pe, k))
  }

  /** The groups when the paper code ends at `pe` and the series name at `k`. */
  function GroupsAt(b: string, pe: nat, k: nat): SummaryMatch
    requires 1 < pe < k && NameEndOk(b, k)
  {
    var tl := SplitTail(b[k..]).value;
    SummaryMatch(b[..1], b[1..pe], b[pe + 1..k], tl.week, tl.eventType, tl.staff, tl.location)
  }

  lemma GroupsAtSound(b: string, pe: nat, k: nat)
    requires 1 < pe && pe + 1 < k && NameEndOk(b, k)
    requires '\n' !in b && IsDigit(b[0]) && b[pe] == '/'
    requires forall j :: 1 <= j < pe ==> IsPaperChar(b[j])
    ensures Conforms(GroupsAt(b, pe, k)) && Render(GroupsAt(b, pe, k)) == b
  {
    var m := GroupsAt(b, pe, k);
    MatchPieces(b, pe, k);
    NoNewlineInSlices(b, pe + 1, k);
    NoNewlineInSlices(b, k, |b|);
    assert b[k..] == RenderTail(TailOf(m));
    assert NoNewline(m.staff) && NoNewline(m.location) by {
      assert forall c :: c in m.staff || c in m.location ==> c in b[k..];
    }
  }

  /** Where each group of a rendered summary sits. */
  lemma RenderedLayout(m: SummaryMatch)
    requires Conforms(m)
    ensures var b := Render(m); var p := |m.paper|;
      && |b| > 2 + p + |m.name| && IsDigit(b[0]) && '\n' !in b && Body(b) == b
      && PaperRunEnd(b, 1) == 1 + p && b[1 + p] == '/'
      && b[..1] == m.part && b[1..1 + p] == m.paper && b[2 + p..2 + p + |m.name|] == m.name
      && b[2 + p + |m.name|..] == RenderTail(TailOf(m))
  {
    var b := Render(m);
    var p := |m.paper|;
    var rt := RenderTail(TailOf(m));
    var t := TailOf(m);
    assert b == m.part + m.paper + "/" + m.name + rt;
    assert forall j :: 1 <= j < 1 + p ==> b[j] == m.paper[j - 1];
    assert b[1 + p] == '/';
    var r := PaperRunEnd(b, 1);
    assert forall j :: 1 <= j < 1 + p ==> IsPaperChar(b[j]);
    assert !IsPaperChar('/') && !IsPaperChar('\n') && !IsDigit('\n');
    assert '\n' !in m.part && '\n' !in m.paper && '\n' !in t.week && '\n' !in t.eventType;
    assert rt == "[" + t.week + "]" + t.eventType + " " + t.staff + "(" + t.location + ")";
    assert '\n' !in rt;
    assert b[|b| - 1] == ')';
  }

  /** Appending text without `(` leaves the last `(` where it was. */
  lemma {:induction false} LastOpenParenAppend(s: string, t: string)
    requires '(' !in t
    ensures LastOpenParen(s + t) == LastOpenParen(s)
    decreases |t|
  {
    if |t| > 0 {
      var init := t[..|t| - 1];
      assert t[|t| - 1] in t;
      assert (s + t)[..|s + t| - 1] == s + init;
      assert forall c :: c in init ==> c in t;
      LastOpenParenAppend(s, init);
    } else {
      assert s + t == s;
    }
  }

  lemma LastOpenParenOfRendered(staff: string, location: string)
    requires '(' !in location
    ensures LastOpenParen(staff + "(" + location + ")") == Some(|staff|)
  {
    var head := staff + "(";
    assert '(' !in location + ")";
    LastOpenParenAppend(head, location + ")");
    assert staff + "(" + location + ")" == head + (location + ")");
    assert LastOpenParen(head) == Some(|staff|);
  }

  lemma StaffLocationRendered(staff: string, location: string)
    ensures SplitStaffLocation(staff + "(" + location + ")").Some?
    ensures '(' !in location ==> SplitStaffLocation(staff + "(" + location + ")") == Some((staff, location))
  {
    var rest := staff + "(" + location + ")";
    assert rest[|staff|] == '(';
    assert rest[|rest| - 1] == ')';
    if '(' !in location {
      LastOpenParenOfRendered(staff, location);
      assert rest[..|staff|] == staff;
      assert rest[|staff| + 1..|rest| - 1] == location;
    }
  }

  /** In a rendered tail the week digits end exactly at the `]`. */
  lemma RenderedTailLayout(t: Tail)
    requires ValidTail(t)
    ensures var s := RenderTail(t); var w := |t.week|;
      && |s| >= w + 4 && s[0] == '['
      && DigitRunEnd(s, 1) == 1 + w && s[1 + w] == ']' && s[w + 2] == t.eventType[0] && s[w + 3] == ' '
      && s[1..1 + w] == t.week && s[w + 4..] == t.staff + "(" + t.location + ")"
  {
    var s := RenderTail(t);
    var w := |t.week|;
    assert s == "[" + t.week + "]" + t.eventType + " " + (t.staff + "(" + t.location + ")");
    assert forall j :: 1 <= j < 1 + w ==> s[j] == t.week[j - 1];
    assert s[1 + w] == ']' && s[w + 2] == t.eventType[0] && s[w + 3] == ' ';
    var de := DigitRunEnd(s, 1);
    assert forall j :: 1 <= j < 1 + w ==> IsDigit(s[j]);
    assert !IsDigit(s[1 + w]);
  }

  /** The tail of a rendered summary matches the rest of the pattern with the same week and type. */
  lemma SplitRendered(t: Tail)
    requires ValidTail(t)
    ensures SplitTail(RenderTail(t)).Some?
    ensures SplitTail(RenderTail(t)).value.week == t.week
    ensures SplitTail(RenderTail(t)).value.eventType == t.eventType
    ensures '(' !in t.location ==> SplitTail(RenderTail(t)) == Some(t)
  {
    var s := RenderTail(t);
    RenderedTailLayout(t);
    StaffLocationRendered(t.staff, t.location);
    var de := 1 + |t.week|;
    assert [s[de + 1]] == t.eventType;
    var sl := SplitStaffLocation(s[de + 3..]).value;
    assert SplitTail(s) == Some(Tail(t.week, t.eventType, sl.0, sl.1));
  }

  /** Every match the pattern admits leaves a series name no longer than the one Python picks. */
  lemma MatchComplete(s: string, m: SummaryMatch)
    requires Conforms(m) && Render(m) == Body(s)
    ensures MatchSummary(s).Some?
    ensures |m.name| <= |MatchSummary(s).value.name|
  {
    var b := Body(s);
    var p := |m.paper|;
    var k0 := 2 + p + |m.name|;
    RenderedLayout(m);
    SplitRendered(TailOf(m));
    assert NameEndOk(b, k0);
    BodyMatchesFrom(b, 1 + p, k0);
  }

  /** Once the paper code is in place, any admissible name end bounds the one the backtracking picks. */
  lemma BodyMatchesFrom(b: string, pe: nat, k0: nat)
    requires |b| > 0 && '\n' !in b && IsDigit(b[0])
    requires NameEndOk(b, k0) && PaperRunEnd(b, 1) == pe && 1 < pe && pe + 2 <= k0 && b[pe] == '/'
    ensures MatchBody(b).Some? && k0 - pe - 1 <= |MatchBody(b).value.name|
  {
    var found := FindNameEnd(b, pe + 2, |b|);
    assert found.Some? && k0 <= found.value;
  }

  /** After the series name, a later `[` can only fall in the location, where no `(` follows. */
  lemma NoLaterNameEnd(t: Tail, d: nat)
    requires ValidTail(t) && '[' !in t.staff && '(' !in t.location
    requires 1 <= d < |RenderTail(t)| && RenderTail(t)[d] == '['
    ensures '(' !in RenderTail(t)[d..]
  {
    var rt := RenderTail(t);
    var a := "[" + t.week + "]" + t.eventType + " ";
    var tl := t.location + ")";
    assert rt == a + t.staff + "(" + tl;
    if d <= |a| + |t.staff| {
      assert false;
    } else {
      assert rt[d..] == tl[d - |a| - |t.staff| - 1..];
      assert '(' !in tl;
    }
  }

  /**
   * Round trip: rendering groups that satisfy their sub-patterns and parsing
   * the text gives the same groups back, provided no `[` occurs in the staff
   * name and no `(` in the location.
   */
  lemma RoundTrip(m: SummaryMatch)
    requires Conforms(m) && '[' !in m.staff && '(' !in m.location
    ensures MatchSummary(Render(m)) == Some(m)
  {
    var b := Render(m);
    var p := |m.paper|;
    var k0 := 2 + p + |m.name|;
    RenderedLayout(m);
    SplitRendered(TailOf(m));
    MatchComplete(b, m);
    var k := FindNameEnd(b, p + 3, |b|).value;
    if k > k0 {
      assert b[k..] == RenderTail(TailOf(m))[k - k0..];
      NoLaterNameEnd(TailOf(m), k - k0);
      SplitTailHasOpenParen(b[k..]);
    }
    assert k == k0;
  }

  /**
   * The side condition on the staff name is needed: a `[<week>]<type> ` inside
   * it moves the end of the series name, because greedy `(.+)` settles on the
   * later bracket.
   */
  lemma StaffBracketMovesNameEnd()
    ensures MatchSummary(Render(SummaryMatch("1", "CW", "a", "1", "L", "[5]L x", "y")))
         == Some(SummaryMatch("1", "CW", "a[1]L ", "5", "L", "x", "y"))
  {
    var m := SummaryMatch("1", "CW", "a", "1", "L", "[5]L x", "y");
    var greedy := SummaryMatch("1", "CW", "a[1]L ", "5", "L", "x", "y");
    assert Render(m) == Render(greedy);
    assert AllPaperChars(greedy.paper) by { assert IsPaperChar('C') && IsPaperChar('W'); }
    assert Conforms(greedy);
    RoundTrip(greedy);
  }

  /** With two `(` after the type, the staff name runs up to the last one. */
  lemma StaffEndsAtLastParen()
    ensures MatchSummary("1CW/a[1]L x(y(z)") == Some(SummaryMatch("1", "CW", "a", "1", "L", "x(y", "z"))
  {
    var m := SummaryMatch("1", "CW", "a", "1", "L", "x(y", "z");
    assert Render(m) == "1CW/a[1]L x(y(z)";
    assert AllPaperChars(m.paper) by { assert IsPaperChar('C') && IsPaperChar('W'); }
    assert Conforms(m);
    RoundTrip(m);
  }

  function ExampleGroups(): SummaryMatch {
    SummaryMatch("1", "CW", "Example Lecture", "3", "L", "Dr Smith ", "LR1")
  }

  lemma ExampleTailRendered()
    ensures RenderTail(TailOf(ExampleGroups())) == "[3]L Dr Smith (LR1)"
  {
  }

  lemma ExampleRendered()
    ensures Render(ExampleGroups()) == "1CW/Example Lecture[3]L Dr Smith (LR1)"
  {
    var m := ExampleGroups();
    ExampleTailRendered();
    assert m.part + m.paper + "/" + m.name == "1CW/Example Lecture";
    ExampleJoined();
  }

  lemma ExampleJoined()
    ensures "1CW/Example Lecture" + "[3]L Dr Smith (LR1)" == "1CW/Example Lecture[3]L Dr Smith (LR1)"
  {
  }

  lemma ExampleConforms()
    ensures Conforms(ExampleGroups())
  {
    assert IsPaperChar('C') && IsPaperChar('W');
    assert '\n' !in "Example Lecture" && '\n' !in "Dr Smith " && '\n' !in "LR1";
  }

  /** The staff group keeps the space that precedes the location's `(`. */
  lemma ExampleSummary()
    ensures MatchSummary("1CW/Example Lecture[3]L Dr Smith (LR1)")
         == Some(SummaryMatch("1", "CW", "Example Lecture", "3", "L", "Dr Smith ", "LR1"))
  {
    ExampleRendered();
    ExampleConforms();
    RoundTrip(ExampleGroups());
  }

  /** `$` also matches before one final newline, so it does not change the groups. */
  lemma TrailingNewlineIgnored(s: string)
    requires |s| == 0 || s[|s| - 1] != '\n'
    ensures MatchSummary(s + "\n") == MatchSummary(s)
  {
    assert Body(s + "\n") == s;
  }
}
