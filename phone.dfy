/**
 * `formatPhone` of app/voluntarios/page.tsx: the input mask of the phone
 * field. It keeps the first eleven ASCII digits of what was typed and lays
 * them out as `(dd) dddd-dddd` (up to ten digits) or `(dd) ddddd-dddd`
 * (eleven digits), adding each separator only once the group after it has
 * started.
 */
module PhoneMask {

  predicate IsDigit(c: char) {
    '0' <= c <= '9'
  }

  predicate AllDigits(s: string) {
    forall i :: 0 <= i < |s| ==> IsDigit(s[i])
  }

  /** Characters the mask may produce: digits and the separators `(`, `)`, space and `-`. */
  predicate MaskChars(s: string) {
    forall i :: 0 <= i < |s| ==> IsDigit(s[i]) || s[i] == '(' || s[i] == ')' || s[i] == ' ' || s[i] == '-'
  }

  function Min(a: int, b: int): int {
    if a <= b then a else b
  }

  /** `s.replace(/\D/g, '')`: the ASCII digits of `s`, in order. */
  function DigitsOf(s: string): (r: string)
    ensures AllDigits(r) && |r| <= |s|
  {
    if s == [] then [] else (if IsDigit(s[0]) then [s[0]] else []) + DigitsOf(s[1..])
  }

  /** `value.replace(/\D/g, '').slice(0, 11)`. */
  function Cleaned(v: string): string {
    var d := DigitsOf(v);
    d[..Min(11, |d|)]
  }

  /** The part of `c` a bounded `\d{0,width}` group captures when it starts at `from`. */
  function Group(c: string, from: nat, width: nat): string {
    c[Min(from, |c|)..Min(from + width, |c|)]
  }

  /** The replacement callback: each separator only when the group after it is non-empty. */
  function Render(d1: string, d2: string, d3: string): string {
    (if d1 != "" then "(" + d1 else "")
    + (if d1 != "" && d2 != "" then ") " + d2 else "")
    + (if d2 != "" && d3 != "" then "-" + d3 else "")
  }

  /**
   * `c.replace(/(\d{0,2})(\d{0,w})(\d{0,4})/, ...)` on a string of digits:
   * the pattern matches at position 0, each group as long as it can be, and
   * whatever the match leaves over is kept as it is.
   */
  function ApplyMask(c: string, w: nat): string {
    Render(Group(c, 0, 2), Group(c, 2, w), Group(c, 2 + w, 4)) + c[Min(6 + w, |c|)..]
  }

  /** The two layouts, chosen by the number of digits. */
  function Layout(c: string): string {
    if |c| <= 10 then ApplyMask(c, 4) else ApplyMask(c, 5)
  }

  /**
   * `formatPhone(value)`: the first eleven digits of the input, in order,
   * with only mask characters around them.
   */
  function FormatPhone(v: string): (r: string)
    ensures DigitsOf(r) == DigitsOf(v)[..Min(11, |DigitsOf(v)|)]
    ensures MaskChars(r)
  {
    var c := Cleaned(v);
    var w := if |c| <= 10 then 4 else 5;
    MaskDigits(c, w);
    MaskOnlyMaskChars(c, w);
    Layout(c)
  }

  /** Length of the mask of `n` kept digits. */
  function MaskedLength(n: nat): nat {
    if n == 0 then 0
    else if n <= 2 then n + 1
    else if n <= 6 then n + 3
    else if n <= 10 then n + 4
    else 15
  }

  // ---- digits --------------------------------------------------------------

  lemma {:induction false} DigitsOfConcat(a: string, b: string)
    ensures DigitsOf(a + b) == DigitsOf(a) + DigitsOf(b)
  {
    if a == [] {
      assert a + b == b;
    } else {
      assert (a + b)[1..] == a[1..] + b;
      DigitsOfConcat(a[1..], b);
    }
  }

  lemma {:induction false} DigitsOfDigits(s: string)
    requires AllDigits(s)
    ensures DigitsOf(s) == s
  {
    if s != [] {
      DigitsOfDigits(s[1..]);
    }
  }

  /** The three groups and the rest put back together give the digits again. */
  lemma GroupsCover(c: string, w: nat)
    ensures Group(c, 0, 2) + Group(c, 2, w) + Group(c, 2 + w, 4) + c[Min(6 + w, |c|)..] == c
  {
    var a, b, d := Min(2, |c|), Min(2 + w, |c|), Min(6 + w, |c|);
    assert c[..a] + c[a..b] + c[b..d] + c[d..] == c;
  }

  /** The separators hold no digit, so the digits of a rendering are its groups. */
  lemma {:induction false} RenderDigits(d1: string, d2: string, d3: string)
    requires AllDigits(d1) && AllDigits(d2) && AllDigits(d3)
    requires d1 == "" ==> d2 == ""
    requires d2 == "" ==> d3 == ""
    ensures DigitsOf(Render(d1, d2, d3)) == d1 + d2 + d3
  {
    var p1 := if d1 != "" then "(" + d1 else "";
    var p2 := if d1 != "" && d2 != "" then ") " + d2 else "";
    var p3 := if d2 != "" && d3 != "" then "-" + d3 else "";
    DigitsOfDigits(d1);
    DigitsOfDigits(d2);
    DigitsOfDigits(d3);
    DigitsOfConcat("(", d1);
    DigitsOfConcat(") ", d2);
    DigitsOfConcat("-", d3);
    assert DigitsOf(p1) == d1;
    assert DigitsOf(p2) == d2;
    assert DigitsOf(p3) == d3;
    DigitsOfConcat(p1, p2);
    DigitsOfConcat(p1 + p2, p3);
  }

  lemma MaskDigits(c: string, w: nat)
    requires AllDigits(c) && w > 0
    ensures DigitsOf(ApplyMask(c, w)) == c
  {
    var d1, d2, d3 := Group(c, 0, 2), Group(c, 2, w), Group(c, 2 + w, 4);
    var rest := c[Min(6 + w, |c|)..];
    RenderDigits(d1, d2, d3);
    DigitsOfDigits(rest);
    DigitsOfConcat(Render(d1, d2, d3), rest);
    GroupsCover(c, w);
  }

  /** Re-applying the mask to a masked value changes nothing, as the field's change handler relies on. */
  lemma FormatIdempotent(v: string)
    ensures FormatPhone(FormatPhone(v)) == FormatPhone(v)
  {
    var c := Cleaned(v);
    assert Cleaned(FormatPhone(v)) == c[..Min(11, |c|)] == c;
  }

  // ---- characters ----------------------------------------------------------

  lemma MaskCharsConcat(a: string, b: string)
    requires MaskChars(a) && MaskChars(b)
    ensures MaskChars(a + b)
  {
    assert forall i :: 0 <= i < |a + b| ==> (a + b)[i] == if i < |a| then a[i] else b[i - |a|];
  }

  lemma MaskOnlyMaskChars(c: string, w: nat)
    requires AllDigits(c)
    ensures MaskChars(ApplyMask(c, w))
  {
    var d1, d2, d3 := Group(c, 0, 2), Group(c, 2, w), Group(c, 2 + w, 4);
    MaskCharsConcat("(", d1);
    MaskCharsConcat(") ", d2);
    MaskCharsConcat("-", d3);
    var p1 := if d1 != "" then "(" + d1 else "";
    var p2 := if d1 != "" && d2 != "" then ") " + d2 else "";
    var p3 := if d2 != "" && d3 != "" then "-" + d3 else "";
    MaskCharsConcat(p1, p2);
    MaskCharsConcat(p1 + p2, p3);
    MaskCharsConcat(p1 + p2 + p3, c[Min(6 + w, |c|)..]);
  }

  // ---- shape and length ----------------------------------------------------

  /** The mask of `n` digits, written out group by group. */
  lemma LayoutShape(c: string)
    requires AllDigits(c) && |c| <= 11
    ensures |c| == 0 ==> Layout(c) == ""
    ensures 0 < |c| <= 2 ==> Layout(c) == "(" + c
    ensures 2 < |c| <= 6 ==> Layout(c) == "(" + c[..2] + ") " + c[2..]
    ensures 6 < |c| <= 10 ==> Layout(c) == "(" + c[..2] + ") " + c[2..6] + "-" + c[6..]
    ensures |c| == 11 ==> Layout(c) == "(" + c[..2] + ") " + c[2..7] + "-" + c[7..]
  {
    var n := |c|;
    var w := if n <= 10 then 4 else 5;
    var d1, d2, d3 := Group(c, 0, 2), Group(c, 2, w), Group(c, 2 + w, 4);
    assert c[Min(6 + w, n)..] == [];
    assert Layout(c) == Render(d1, d2, d3) + [];
    if n == 0 {
    } else if n <= 2 {
      assert d1 == c && d2 == [] && d3 == [];
    } else if n <= 6 {
      assert d1 == c[..2] && d2 == c[2..] && d3 == [];
    } else if n <= 10 {
      assert d1 == c[..2] && d2 == c[2..6] && d3 == c[6..];
    } else {
      assert d1 == c[..2] && d2 == c[2..7] && d3 == c[7..];
    }
  }

  /** Exactly ten digits give `(dd) dddd-dddd`, fourteen characters; eleven give `(dd) ddddd-dddd`, fifteen. */
  lemma FullNumbers(v: string)
    ensures var c := Cleaned(v);
      |c| == 10 ==> FormatPhone(v) == "(" + c[..2] + ") " + c[2..6] + "-" + c[6..] && |FormatPhone(v)| == 14
    ensures var c := Cleaned(v);
      |c| == 11 ==> FormatPhone(v) == "(" + c[..2] + ") " + c[2..7] + "-" + c[7..] && |FormatPhone(v)| == 15
  {
    LayoutShape(Cleaned(v));
  }

  /** Nothing typed yields the empty string; one or two digits an open parenthesis and no closing one. */
  lemma ShortInputs(v: string)
    ensures DigitsOf(v) == "" ==> FormatPhone(v) == ""
    ensures 0 < |DigitsOf(v)| <= 2 ==> FormatPhone(v) == "(" + DigitsOf(v)
  {
    LayoutShape(Cleaned(v));
  }

  /** The length of the mask is fixed by the number of digits kept. */
  lemma FormatLength(v: string)
    ensures |FormatPhone(v)| == MaskedLength(|Cleaned(v)|)
    ensures |FormatPhone(v)| <= 15
  {
    LayoutShape(Cleaned(v));
  }

  /** Each separator appears exactly when the group after it has begun. */
  lemma SeparatorsFollowGroups(v: string)
    ensures '(' in FormatPhone(v) <==> |Cleaned(v)| > 0
    ensures ')' in FormatPhone(v) <==> |Cleaned(v)| > 2
    ensures '-' in FormatPhone(v) <==> |Cleaned(v)| > 6
  {
    var c := Cleaned(v);
    LayoutShape(c);
    assert forall i :: 0 <= i < |c| ==> IsDigit(c[i]);
  }

  /** A masked value is at least fourteen characters long exactly when it holds at least ten digits. */
  lemma LongEnoughIffTenDigits(v: string)
    ensures |FormatPhone(v)| >= 14 <==> |Cleaned(v)| >= 10
  {
    FormatLength(v);
  }
}
