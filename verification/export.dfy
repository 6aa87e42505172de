/**
 * The string cores of the HTML export: HTML escaping, the splice that
 * swaps the viewer template's geometry block for the project's, the guard
 * that refuses flying mounts, and the interaxis and tube cells of the
 * technical panel.
 */
module Export {
  import opened Base
  import opened Types
  import Compute
  import Projector

  // ---------------------------------------------------------------------
  // HTML escaping

  /** Every occurrence of `c` replaced by `rep`, left to right (a global `String.replace`). */
  function ReplaceAll(s: string, c: char, rep: string): (r: string)
    ensures c !in rep ==> c !in r
    ensures c !in s ==> r == s
  {
    if s == [] then []
    else (if s[0] == c then rep else [s[0]]) + ReplaceAll(s[1..], c, rep)
  }

  /** Replacing acts on the two halves of a string independently. */
  lemma {:induction false} ReplaceAllConcat(a: string, b: string, c: char, rep: string)
    ensures ReplaceAll(a + b, c, rep) == ReplaceAll(a, c, rep) + ReplaceAll(b, c, rep)
  {
    if a != [] {
      assert (a + b)[1..] == a[1..] + b;
      ReplaceAllConcat(a[1..], b, c, rep);
    } else {
      assert a + b == b;
    }
  }

  /** `&` first, so the ampersands of the later entities stay as they are. */
  function EscapeHtml(s: string): (r: string)
    ensures r == EscapeEach(s)
    ensures '<' !in r && '>' !in r && '"' !in r
    ensures (forall i :: 0 <= i < |s| ==> s[i] !in "&<>\"") ==> r == s
  {
    var r := ReplaceAll(ReplaceAll(ReplaceAll(ReplaceAll(s, '&', "&amp;"), '<', "&lt;"), '>', "&gt;"), '"', "&quot;");
    assert r == EscapeEach(s) by { EscapeIsPerCharacter(s); }
    EscapeEachIdentity(s);
    r
  }

  /** The entity for one character, or the character itself. */
  function EscapeChar(c: char): (r: string)
    ensures c !in "&<>\"" ==> r == [c]
    ensures '<' !in r && '>' !in r && '"' !in r
  {
    match c
    case '&' => "&amp;"
    case '<' => "&lt;"
    case '>' => "&gt;"
    case '"' => "&quot;"
    case _ => [c]
  }

  /** Reference definition: each character escaped on its own. */
  function EscapeEach(s: string): (r: string)
    ensures '<' !in r && '>' !in r && '"' !in r
  {
    if s == [] then [] else EscapeChar(s[0]) + EscapeEach(s[1..])
  }

  lemma {:induction false} EscapeEachIdentity(s: string)
    ensures (forall i :: 0 <= i < |s| ==> s[i] !in "&<>\"") ==> EscapeEach(s) == s
  {
    if s != [] && forall i :: 0 <= i < |s| ==> s[i] !in "&<>\"" {
      assert forall i :: 0 <= i < |s[1..]| ==> s[1..][i] == s[i + 1];
      EscapeEachIdentity(s[1..]);
      assert s == [s[0]] + s[1..];
    }
  }

  /** The four chained replacements escape one character at a time. */
  lemma {:induction false} EscapeIsPerCharacter(s: string)
    ensures ReplaceAll(ReplaceAll(ReplaceAll(ReplaceAll(s, '&', "&amp;"), '<', "&lt;"), '>', "&gt;"), '"', "&quot;")
            == EscapeEach(s)
  {
    if s != [] {
      var head := [s[0]];
      var tail := s[1..];
      assert s == head + tail;
      var a := ReplaceAll(s, '&', "&amp;");
      ReplaceAllConcat(head, tail, '&', "&amp;");
      var a1 := ReplaceAll(head, '&', "&amp;");
      var a2 := ReplaceAll(tail, '&', "&amp;");
      ReplaceAllConcat(a1, a2, '<', "&lt;");
      var b1 := ReplaceAll(a1, '<', "&lt;");
      var b2 := ReplaceAll(a2, '<', "&lt;");
      ReplaceAllConcat(b1, b2, '>', "&gt;");
      var c1 := ReplaceAll(b1, '>', "&gt;");
      var c2 := ReplaceAll(b2, '>', "&gt;");
      ReplaceAllConcat(c1, c2, '"', "&quot;");
      EscapeOneChar(s[0]);
      EscapeIsPerCharacter(tail);
    }
  }

  lemma EscapeOneChar(c: char)
    ensures ReplaceAll(ReplaceAll(ReplaceAll(ReplaceAll([c], '&', "&amp;"), '<', "&lt;"), '>', "&gt;"), '"', "&quot;")
            == EscapeChar(c)
  {
    assert [c][1..] == [];
    if c == '&' {
      assert ReplaceAll([c], '&', "&amp;") == "&amp;";
    } else {
      assert ReplaceAll([c], '&', "&amp;") == [c];
      if c == '<' {
        assert ReplaceAll([c], '<', "&lt;") == "&lt;";
      } else {
        assert ReplaceAll([c], '<', "&lt;") == [c];
        if c == '>' {
          assert ReplaceAll([c], '>', "&gt;") == "&gt;";
        } else {
          assert ReplaceAll([c], '>', "&gt;") == [c];
          assert ReplaceAll([c], '"', "&quot;") == EscapeChar(c);
        }
      }
    }
  }

  /** Decoding of the four entities; anything else is kept. */
  function Unescape(s: string): (r: string)
    ensures |r| <= |s|
  {
    if s == [] then []
    else if |s| >= 5 && s[..5] == "&amp;" then "&" + Unescape(s[5..])
    else if |s| >= 4 && s[..4] == "&lt;" then "<" + Unescape(s[4..])
    else if |s| >= 4 && s[..4] == "&gt;" then ">" + Unescape(s[4..])
    else if |s| >= 6 && s[..6] == "&quot;" then "\"" + Unescape(s[6..])
    else [s[0]] + Unescape(s[1..])
  }

  /**
   * Escaping loses nothing and never escapes twice: decoding the entities
   * gives back the original text.
   */
  lemma {:induction false} UnescapeEscape(s: string)
    ensures Unescape(EscapeHtml(s)) == s
  {
    UnescapeEach(s);
  }

  lemma {:induction false} UnescapeEach(s: string)
    ensures Unescape(EscapeEach(s)) == s
  {
    if s != [] {
      UnescapeOne(s[0], EscapeEach(s[1..]));
      UnescapeEach(s[1..]);
      assert s == [s[0]] + s[1..];
    }
  }

  /** Decoding reads one escaped character back off the front. */
  lemma UnescapeOne(c: char, rest: string)
    ensures Unescape(EscapeChar(c) + rest) == [c] + Unescape(rest)
  {
    if c in "&<>\"" {
      UnescapeEntity(c, rest);
    } else {
      UnescapePlain(c, rest);
    }
  }

  lemma UnescapeEntity(c: char, rest: string)
    requires c in "&<>\""
    ensures Unescape(EscapeChar(c) + rest) == [c] + Unescape(rest)
  {
    var entity := EscapeChar(c);
    var e := entity + rest;
    var n := |entity|;
    assert e[n..] == rest;
    assert e[..n] == entity;
    assert e[0] == '&' && e[1] == entity[1];
    assert |e| >= 5 ==> e[..5][1] == e[1];
    assert |e| >= 4 ==> e[..4][1] == e[1];
  }

  lemma UnescapePlain(c: char, rest: string)
    requires c != '&'
    ensures Unescape([c] + rest) == [c] + Unescape(rest)
  {
    var e := [c] + rest;
    assert e[1..] == rest;
    assert |e| >= 4 ==> e[..4][0] == c;
    assert |e| >= 5 ==> e[..5][0] == c;
    assert |e| >= 6 ==> e[..6][0] == c;
  }

  // ---------------------------------------------------------------------
  // The geometry splice

  /** `pat` occurs in `s` at position `i`. */
  predicate At(s: string, pat: string, i: int) {
    0 <= i && i + |pat| <= |s| && s[i..i + |pat|] == pat
  }

  function IndexFrom(s: string, pat: string, i: nat): (r: int)
    requires |pat| > 0
    ensures r == -1 || (i <= r && At(s, pat, r))
    ensures forall j :: i <= j && (r == -1 || j < r) ==> !At(s, pat, j)
    decreases |s| - i
  {
    if i + |pat| > |s| then -1
    else if s[i..i + |pat|] == pat then i
    else IndexFrom(s, pat, i + 1)
  }

  /**
   * `String.prototype.indexOf(pat, from)` for a non-empty pattern: the first
   * occurrence at or after `from` (a negative `from` searches from the
   * start), or -1.
   */
  function IndexOf(s: string, pat: string, from: int): (r: int)
    requires |pat| > 0
    ensures r == -1 || (MaxI(0, from) <= r && At(s, pat, r))
    ensures forall j :: MaxI(0, from) <= j && (r == -1 || j < r) ==> !At(s, pat, j)
  {
    IndexFrom(s, pat, MaxI(0, from))
  }

  /** The first occurrence at or after `from` is at `k`. */
  predicate FirstAt(s: string, pat: string, from: int, k: int) {
    from <= k && At(s, pat, k) && forall j :: from <= j < k ==> !At(s, pat, j)
  }

  lemma IndexOfFirst(s: string, pat: string, from: int, k: int)
    requires |pat| > 0 && 0 <= from && FirstAt(s, pat, from, k)
    ensures IndexOf(s, pat, from) == k
  {
  }

  const PStartMarker: string := "const P = {"
  const TubeMarker: string := "P.TUBE_Y = ["
  const CloseMarker: string := "];"

  /**
   * The splice as written: from the first `const P = {` to the `];` closing
   * the first `P.TUBE_Y = [`, replaced by the project's script, but only if
   * the guard `tubeEnd > pEnd` passes.
   */
  function SpliceAsWritten(html: string, script: string): (r: string)
    ensures IndexOf(html, PStartMarker, 0) < 0 || IndexOf(html, TubeMarker, 0) < 0 ==> r == html
  {
    var pStart := IndexOf(html, PStartMarker, 0);
    var pEnd := IndexOf(html, TubeMarker, 0);
    var tubeEnd := IndexOf(html, CloseMarker, pEnd) + 2;
    if pStart >= 0 && pEnd >= 0 && tubeEnd > pEnd then html[..pStart] + script + html[tubeEnd..]
    else html
  }

  /**
   * The guard lets a template through that has both markers but no closing
   * `];`: the missing bracket gives `tubeEnd = 1`, which beats `pEnd = 0`,
   * and everything but the first character of the page follows the script.
   */
  lemma SpliceGuardSlip()
    ensures var html := TubeMarker + PStartMarker;
      && IndexOf(html, CloseMarker, 0) == -1
      && SpliceAsWritten(html, "S") == TubeMarker + "S" + html[1..]
  {
    var html := TubeMarker + PStartMarker;
    SlipMarkers(html);
    NoClose(html);
  }

  lemma SlipMarkers(html: string)
    requires html == TubeMarker + PStartMarker
    ensures IndexOf(html, TubeMarker, 0) == 0 && IndexOf(html, PStartMarker, 0) == 12
  {
    assert html[..12] == TubeMarker;
    IndexOfFirst(html, TubeMarker, 0, 0);
    assert html[12..23] == PStartMarker;
    forall j | 0 <= j < 12
      ensures !At(html, PStartMarker, j)
    {
      assert html[j] == TubeMarker[j] != 'c';
    }
    IndexOfFirst(html, PStartMarker, 0, 12);
  }

  lemma NoClose(html: string)
    requires html == TubeMarker + PStartMarker
    ensures IndexOf(html, CloseMarker, 0) == -1
  {
    assert forall i :: 0 <= i < |html| ==> html[i] != ']';
    forall j | 0 <= j
      ensures !At(html, CloseMarker, j)
    {
      if j + 2 <= |html| {
        assert html[j..j + 2][0] == html[j];
      }
    }
  }

  /** The splice with the evidently intended guard: the closing `];` was found. */
  function Splice(html: string, script: string): (r: string)
    ensures IndexOf(html, PStartMarker, 0) < 0 || IndexOf(html, TubeMarker, 0) < 0 ==> r == html
    ensures IndexOf(html, CloseMarker, MaxI(0, IndexOf(html, TubeMarker, 0))) < 0 ==> r == html
  {
    var pStart := IndexOf(html, PStartMarker, 0);
    var pEnd := IndexOf(html, TubeMarker, 0);
    var close := IndexOf(html, CloseMarker, pEnd);
    if pStart >= 0 && pEnd >= 0 && close >= 0 then html[..pStart] + script + html[close + 2..]
    else html
  }

  /**
   * With both markers and a closing `];` after the tube list, the splice
   * keeps the page before `const P = {` and after that `];`, and puts the
   * script in between; without a marker the page is unchanged.
   */
  lemma SpliceReplacesBlock(html: string, script: string, pStart: int, pEnd: int, close: int)
    requires FirstAt(html, PStartMarker, 0, pStart)
    requires FirstAt(html, TubeMarker, 0, pEnd)
    requires FirstAt(html, CloseMarker, pEnd, close)
    ensures Splice(html, script) == html[..pStart] + script + html[close + 2..]
    ensures html[close..close + 2] == CloseMarker
  {
    IndexOfFirst(html, PStartMarker, 0, pStart);
    IndexOfFirst(html, TubeMarker, 0, pEnd);
    IndexOfFirst(html, CloseMarker, pEnd, close);
  }

  /** The as-written guard agrees with the intended one whenever the tube marker is not at the very start. */
  lemma SpliceAgreesAwayFromStart(html: string, script: string)
    requires IndexOf(html, TubeMarker, 0) != 0
    ensures SpliceAsWritten(html, script) == Splice(html, script)
  {
  }

  // ---------------------------------------------------------------------
  // Export guard

  /** `exportProject` stops before building any HTML for a flying mount. */
  predicate ExportRefused(p: Project) {
    p.structure.mountType == Flying
  }

  /**
   * The mixed ground-flying mount passes the guard although the engine
   * lays out no legs for it, so its export shows a wall without legs.
   */
  lemma GroundFlyingExportsWithoutLegs(p: Project)
    requires Projector.Fresh(p) && p.structure.mountType == GroundFlying
    ensures !ExportRefused(p)
    ensures p.computed.legPositionsMm == [] && Projector.ProjectToP(p).legX == []
  {
    assert p.computed.legPositionsMm == Compute.LegLayout(p.led, p.structure).0;
  }

  /** Only the flying mount is refused. */
  lemma ExportRefusedIff(p: Project)
    ensures ExportRefused(p) <==> p.structure.mountType !in {Ground, GroundFlying}
  {
  }

  // ---------------------------------------------------------------------
  // Technical panel cells

  const Dash: string := "\U{2014}"

  function DigitChar(d: int): (c: char)
    requires 0 <= d < 10
    ensures '0' <= c <= '9'
  {
    ('0' as int + d) as char
  }

  /** Decimal digits of a natural number, as JavaScript prints it. */
  function DecimalString(n: nat): (s: string)
    ensures |s| >= 1
    ensures forall i :: 0 <= i < |s| ==> '0' <= s[i] <= '9'
    ensures |s| > 1 ==> s[0] != '0'
    decreases n
  {
    if n < 10 then [DigitChar(n)] else DecimalString(n / 10) + [DigitChar(n % 10)]
  }

  /** Reads a string of decimal digits. */
  function ParseDecimal(s: string): (n: nat)
    requires forall i :: 0 <= i < |s| ==> '0' <= s[i] <= '9'
  {
    if s == [] then 0 else ParseDecimal(s[..|s| - 1]) * 10 + (s[|s| - 1] as int - '0' as int)
  }

  lemma {:induction false} ParseDecimalString(n: nat)
    ensures ParseDecimal(DecimalString(n)) == n
    decreases n
  {
    if n >= 10 {
      var s := DecimalString(n);
      assert s[..|s| - 1] == DecimalString(n / 10);
      ParseDecimalString(n / 10);
    }
  }

  /**
   * The interaxis cell: the engine's leg spacing rounded to whole mm when a
   * leg configuration exists and the spacing is positive, else a dash.
   */
  function InteraxisText(p: Project): (t: string)
    ensures p.structure.legs.None? || p.computed.legSpacingMm <= 0.0 ==> t == Dash
    ensures p.structure.legs.Some? && p.computed.legSpacingMm > 0.0 ==>
      t == DecimalString(Round(p.computed.legSpacingMm)) + " mm"
  {
    if p.structure.legs.Some? && p.computed.legSpacingMm > 0.0 then
      DecimalString(Round(p.computed.legSpacingMm)) + " mm"
    else Dash
  }

  /**
   * For fresh metrics the interaxis is printed exactly for a ground mount
   * with at least two legs spread over more than twice the edge offset,
   * and then it reads back as the rounded engine spacing.
   */
  lemma InteraxisShownIff(p: Project)
    requires Projector.Fresh(p)
    ensures var s := p.structure;
      InteraxisText(p) != Dash <==>
        Compute.HasLegs(s) && s.legs.value.count >= 2 && p.led.widthMm > 2.0 * s.legs.value.edgeOffsetMm
    ensures InteraxisText(p) != Dash ==>
      var digits := InteraxisText(p)[..|InteraxisText(p)| - 3];
      (forall i :: 0 <= i < |digits| ==> '0' <= digits[i] <= '9')
      && ParseDecimal(digits) == Round(p.computed.legSpacingMm)
  {
    var s := p.structure;
    assert p.computed.legSpacingMm == Compute.LegLayout(p.led, s).1;
    if Compute.HasLegs(s) {
      SpacingPositiveIff(p.led.widthMm, s.legs.value);
    }
    if InteraxisText(p) != Dash {
      var n := Round(p.computed.legSpacingMm);
      var t := DecimalString(n) + " mm";
      assert t[..|t| - 3] == DecimalString(n);
      ParseDecimalString(n);
    }
  }

  lemma SpacingPositiveIff(widthMm: real, legs: LegConfig)
    ensures Compute.LegSpacing(widthMm, legs) > 0.0 <==> legs.count >= 2 && widthMm > 2.0 * legs.edgeOffsetMm
  {
    if legs.count > 1 {
      var d := (legs.count - 1) as real;
      assert Compute.LegSpacing(widthMm, legs) * d == widthMm - 2.0 * legs.edgeOffsetMm;
    }
  }

  /**
   * The tube cell: count, diameter and, for double clamps, the second
   * scaffold clamp; a dash without tubes. The diameter's decimal text is
   * supplied by the caller.
   */
  function TubeText(t: TubeConfig, diameterText: string): (r: string)
    ensures t.count <= 0 ==> r == Dash
    ensures t.count > 0 ==>
      var k := |DecimalString(t.count)|;
      && |r| > k && r[k] == ' '
      && (forall i :: 0 <= i < k ==> '0' <= r[i] <= '9')
      && ParseDecimal(r[..k]) == t.count
    ensures t.count > 0 ==>
      (t.clampType == Double <==> |r| >= 17 && r[|r| - 17..] == "+ doppio aliscaff")
  {
    if t.count > 0 then
      var digits := DecimalString(t.count);
      var head := digits + " \U{D7} \U{D8}" + diameterText + " ";
      var r := head + (if t.clampType == Double then "+ doppio aliscaff" else "");
      assert r[..|digits|] == digits;
      ParseDecimalString(t.count);
      assert t.clampType != Double ==> r[|r| - 1] == ' ';
      r
    else Dash
  }
}
