/**
 Version arithmetic: component-wise comparison of version strings (internal/handler/hotupdate.go)
 and the base-1000 version code (internal/handler/script_version_helper.go). `lower` stands for
 `strings.ToLower`; nothing here depends on what it does.
 */
module Versions {
  import opened Common

  // ---------- the string functions the code uses ----------

  predicate Digit(c: char) {
    '0' <= c <= '9'
  }

  /** `unicode.IsSpace`. */
  predicate Space(c: char) {
    || '\t' <= c <= '\r' || c == ' ' || c == '\U{0085}' || c == '\U{00A0}' || c == '\U{1680}'
    || '\U{2000}' <= c <= '\U{200A}' || c == '\U{2028}' || c == '\U{2029}' || c == '\U{202F}' || c == '\U{205F}'
    || c == '\U{3000}'
  }

  function TrimLeft(s: string): string {
    if s != "" && Space(s[0]) then TrimLeft(s[1..]) else s
  }

  function TrimRight(s: string): string {
    if s != "" && Space(s[|s| - 1]) then TrimRight(s[..|s| - 1]) else s
  }

  function Trim(s: string): string {
    TrimRight(TrimLeft(s))
  }

  /** `strings.FieldsFunc`: the maximal runs of characters that are not separators. */
  function Fields(s: string, separator: char -> bool, current: string): seq<string> {
    var done := if current == "" then [] else [current];
    if s == "" then done
    else if separator(s[0]) then done + Fields(s[1..], separator, "")
    else Fields(s[1..], separator, current + [s[0]])
  }

  predicate AllDigits(s: string) {
    s == "" || (AllDigits(s[..|s| - 1]) && Digit(s[|s| - 1]))
  }

  lemma {:induction false} AllDigitsMeans(s: string)
    ensures AllDigits(s) <==> forall i :: 0 <= i < |s| ==> Digit(s[i])
  {
    if s != "" {
      AllDigitsMeans(s[..|s| - 1]);
      assert forall i :: 0 <= i < |s| - 1 ==> s[i] == s[..|s| - 1][i];
    }
  }

  function DigitsValue(s: string): nat
    requires AllDigits(s)
  {
    if s == "" then 0 else DigitsValue(s[..|s| - 1]) * 10 + (s[|s| - 1] as int - '0' as int)
  }

  const MAX_INT := 0x7FFF_FFFF_FFFF_FFFF

  /** `strconv.Atoi`: an optional sign and digits, within 64 bits. */
  function Atoi(s: string): Option<int> {
    var negative := s != "" && s[0] == '-';
    var digits := if s != "" && (s[0] == '-' || s[0] == '+') then s[1..] else s;
    if digits == "" || !AllDigits(digits) then None
    else
      var n: int := DigitsValue(digits);
      if negative then (if n <= MAX_INT + 1 then Some(-n) else None) else (if n <= MAX_INT then Some(n) else None)
  }

  /** `strings.Compare`; byte order of UTF-8 is code-point order. */
  function CompareText(a: string, b: string): int {
    if a == "" then (if b == "" then 0 else -1)
    else if b == "" then 1
    else if a[0] < b[0] then -1
    else if a[0] > b[0] then 1
    else CompareText(a[1..], b[1..])
  }

  function Sign(n: int): int {
    if n < 0 then -1 else if n > 0 then 1 else 0
  }

  // ---------- comparison ----------

  predicate VersionSeparator(c: char) {
    c == '.' || c == '-' || c == '_' || c == '+' || c == ' '
  }

  function TrimmedFields(fields: seq<string>): seq<string> {
    if fields == [] then []
    else
      var field := Trim(fields[|fields| - 1]);
      TrimmedFields(fields[..|fields| - 1]) + if field != "" then [field] else []
  }

  function SplitVersionParts(version: string): seq<string> {
    TrimmedFields(Fields(Trim(version), VersionSeparator, ""))
  }

  function PartAt(parts: seq<string>, i: nat): string {
    if i < |parts| then parts[i] else "0"
  }

  function CompareParts(l: string, r: string, lower: string -> string): int {
    var li, ri := Atoi(l), Atoi(r);
    if li.Some? && ri.Some? then Sign(li.value - ri.value) else CompareText(lower(l), lower(r))
  }

  /** The first position where the parts differ decides. */
  function CompareFrom(l: seq<string>, r: seq<string>, i: nat, n: nat, lower: string -> string): int
    decreases n - i
  {
    if i >= n then 0
    else
      var c := CompareParts(PartAt(l, i), PartAt(r, i), lower);
      if c != 0 then c else CompareFrom(l, r, i + 1, n, lower)
  }

  function Longer(l: seq<string>, r: seq<string>): nat {
    if |r| > |l| then |r| else |l|
  }

  function CompareVersionStrings(left: string, right: string, lower: string -> string): int {
    var l, r := SplitVersionParts(left), SplitVersionParts(right);
    CompareFrom(l, r, 0, Longer(l, r), lower)
  }

  // ---------- the version code ----------

  predicate NotDigit(c: char) {
    !Digit(c)
  }

  /** Fold the first four fields, each capped at 999; a field too large for an int is skipped. */
  function CodeFrom(parts: seq<string>, i: nat, code: int): int
    decreases |parts| - i
  {
    if i >= |parts| || i >= 4 then code
    else
      match Atoi(parts[i])
      case None => CodeFrom(parts, i + 1, code)
      case Some(n) => CodeFrom(parts, i + 1, code * 1000 + if n > 999 then 999 else n)
  }

  function ScriptVersionCode(version: string): int {
    var normalized := Trim(version);
    if normalized == "" then 0
    else if Atoi(normalized).Some? then Atoi(normalized).value
    else CodeFrom(Fields(normalized, NotDigit, ""), 0, 0)
  }

  // ---------- the code as loops ----------

  method SplitParts(version: string) returns (parts: seq<string>)
    ensures parts == SplitVersionParts(version)
  {
    var fields := Fields(Trim(version), VersionSeparator, "");
    parts := [];
    for i := 0 to |fields|
      invariant parts == TrimmedFields(fields[..i])
    {
      var field := Trim(fields[i]);
      if field != "" {
        parts := parts + [field];
      }
      assert fields[..i + 1][..i] == fields[..i];
    }
    assert fields[..|fields|] == fields;
  }

  method CompareVersions(left: string, right: string, lower: string -> string) returns (c: int)
    ensures c == CompareVersionStrings(left, right, lower)
  {
    var l := SplitParts(left);
    var r := SplitParts(right);
    c := CompareSplit(l, r, lower);
  }

  method CompareSplit(l: seq<string>, r: seq<string>, lower: string -> string) returns (c: int)
    ensures c == CompareFrom(l, r, 0, Longer(l, r), lower)
  {
    var n := |l|;
    if |r| > n {
      n := |r|;
    }
    for i := 0 to n
      invariant CompareFrom(l, r, i, n, lower) == CompareFrom(l, r, 0, n, lower)
    {
      var lv := PartOrZero(l, i);
      var rv := PartOrZero(r, i);
      var cmp := ComparePair(lv, rv, lower);
      if cmp != 0 {
        return cmp;
      }
    }
    return 0;
  }

  method PartOrZero(parts: seq<string>, i: nat) returns (part: string)
    ensures part == PartAt(parts, i)
  {
    part := "0";
    if i < |parts| {
      part := parts[i];
    }
  }

  method ComparePair(lv: string, rv: string, lower: string -> string) returns (c: int)
    ensures c == CompareParts(lv, rv, lower)
  {
    var li, ri := Atoi(lv), Atoi(rv);
    if li.Some? && ri.Some? {
      if li.value < ri.value {
        return -1;
      }
      if li.value > ri.value {
        return 1;
      }
      return 0;
    }
    var cmp := CompareText(lower(lv), lower(rv));
    CompareTextRange(lower(lv), lower(rv));
    if cmp < 0 {
      return -1;
    }
    if cmp > 0 {
      return 1;
    }
    return 0;
  }

  method VersionCode(version: string) returns (code: int)
    ensures code == ScriptVersionCode(version)
  {
    var normalized := Trim(version);
    if normalized == "" {
      return 0;
    }
    var whole := Atoi(normalized);
    if whole.Some? {
      return whole.value;
    }
    var parts := Fields(normalized, NotDigit, "");
    code := 0;
    var i := 0;
    while i < |parts| && i < 4
      invariant 0 <= i <= |parts|
      invariant CodeFrom(parts, i, code) == CodeFrom(parts, 0, 0)
    {
      var parsed := Atoi(parts[i]);
      if parsed.Some? {
        var n := parsed.value;
        if n > 999 {
          n := 999;
        }
        code := code * 1000 + n;
      }
      i := i + 1;
    }
  }

  // ---------- order laws ----------

  lemma {:induction false} CompareTextRange(a: string, b: string)
    ensures CompareText(a, b) in {-1, 0, 1}
    ensures CompareText(b, a) == -CompareText(a, b)
    ensures CompareText(a, b) == 0 <==> a == b
  {
    if a != "" && b != "" {
      CompareTextRange(a[1..], b[1..]);
      assert a == [a[0]] + a[1..] && b == [b[0]] + b[1..];
    }
  }

  lemma {:induction false} CompareFromAntisymmetric(l: seq<string>, r: seq<string>, i: nat, n: nat, lower: string -> string)
    ensures CompareFrom(r, l, i, n, lower) == -CompareFrom(l, r, i, n, lower)
    decreases n - i
  {
    if i < n {
      CompareTextRange(lower(PartAt(l, i)), lower(PartAt(r, i)));
      CompareFromAntisymmetric(l, r, i + 1, n, lower);
    }
  }

  /** On all inputs whatsoever: swapping the versions flips the answer. */
  lemma CompareIsAntisymmetric(left: string, right: string, lower: string -> string)
    ensures CompareVersionStrings(right, left, lower) == -CompareVersionStrings(left, right, lower)
    ensures CompareVersionStrings(left, left, lower) == 0
  {
    var l, r := SplitVersionParts(left), SplitVersionParts(right);
    CompareFromAntisymmetric(l, r, 0, Longer(l, r), lower);
    CompareFromAntisymmetric(l, l, 0, |l|, lower);
  }

  /** Every component is a number that fits an int. */
  predicate Numeric(parts: seq<string>) {
    parts == [] || (Numeric(parts[..|parts| - 1]) && Atoi(parts[|parts| - 1]).Some?)
  }

  lemma {:induction false} NumericAt(parts: seq<string>, i: nat)
    requires Numeric(parts) && i < |parts|
    ensures Atoi(parts[i]) == Some(Numbers(parts)[i])
  {
    if i < |parts| - 1 {
      NumericAt(parts[..|parts| - 1], i);
    }
  }

  function Value(part: string): int {
    if Atoi(part).Some? then Atoi(part).value else 0
  }

  function Numbers(parts: seq<string>): (r: seq<int>)
    ensures |r| == |parts|
  {
    if parts == [] then [] else Numbers(parts[..|parts| - 1]) + [Value(parts[|parts| - 1])]
  }

  function At(numbers: seq<int>, i: nat): int {
    if i < |numbers| then numbers[i] else 0
  }

  function CompareNumbers(l: seq<int>, r: seq<int>, i: nat, n: nat): int
    decreases n - i
  {
    if i >= n then 0
    else if At(l, i) != At(r, i) then Sign(At(l, i) - At(r, i))
    else CompareNumbers(l, r, i + 1, n)
  }

  lemma ZeroIsZero()
    ensures Atoi("0") == Some(0)
  {
    assert DigitsValue("0") == DigitsValue("") * 10;
  }

  /** Numeric versions compare as number sequences padded with zeros. */
  lemma {:induction false} NumericCompare(l: seq<string>, r: seq<string>, i: nat, n: nat, lower: string -> string)
    requires Numeric(l) && Numeric(r)
    ensures CompareFrom(l, r, i, n, lower) == CompareNumbers(Numbers(l), Numbers(r), i, n)
    decreases n - i
  {
    if i < n {
      NumericCompare(l, r, i + 1, n, lower);
      PairCompare(l, r, i, lower);
    }
  }

  lemma NumericPart(parts: seq<string>, i: nat)
    requires Numeric(parts)
    ensures Atoi(PartAt(parts, i)) == Some(At(Numbers(parts), i))
  {
    ZeroIsZero();
    if i < |parts| {
      NumericAt(parts, i);
    }
  }

  lemma PairCompare(l: seq<string>, r: seq<string>, i: nat, lower: string -> string)
    requires Numeric(l) && Numeric(r)
    ensures CompareParts(PartAt(l, i), PartAt(r, i), lower) == Sign(At(Numbers(l), i) - At(Numbers(r), i))
  {
    NumericPart(l, i);
    NumericPart(r, i);
  }

  /** Padded number sequences compare lexicographically. */
  lemma {:induction false} CompareNumbersIsLexicographic(l: seq<int>, r: seq<int>, i: nat, n: nat)
    ensures CompareNumbers(l, r, i, n) < 0
       <==> exists d :: i <= d < n && At(l, d) < At(r, d) && forall e :: i <= e < d ==> At(l, e) == At(r, e)
    ensures CompareNumbers(l, r, i, n) == 0 <==> forall e :: i <= e < n ==> At(l, e) == At(r, e)
    decreases n - i
  {
    if i < n {
      CompareNumbersIsLexicographic(l, r, i + 1, n);
      if CompareNumbers(l, r, i + 1, n) < 0 && At(l, i) == At(r, i) {
        var d :| i + 1 <= d < n && At(l, d) < At(r, d) && forall e :: i + 1 <= e < d ==> At(l, e) == At(r, e);
        assert forall e :: i <= e < d ==> At(l, e) == At(r, e);
      }
    }
  }

  lemma {:induction false} PaddingIsHarmless(l: seq<string>, r: seq<string>, i: nat, n: nat, m: nat, lower: string -> string)
    requires Longer(l, r) <= n <= m
    ensures CompareFrom(l, r, i, n, lower) == CompareFrom(l, r, i, m, lower)
    decreases m - i
  {
    if i < n {
      PaddingIsHarmless(l, r, i + 1, n, m, lower);
    } else if i < m {
      ZeroIsZero();
      PaddingIsHarmless(l, r, i + 1, n, m, lower);
    }
  }

  /** On numeric versions "at most" is transitive, and so, with antisymmetry, a total preorder. */
  lemma CompareIsTransitive(a: string, b: string, c: string, lower: string -> string)
    requires Numeric(SplitVersionParts(a)) && Numeric(SplitVersionParts(b)) && Numeric(SplitVersionParts(c))
    requires CompareVersionStrings(a, b, lower) <= 0 && CompareVersionStrings(b, c, lower) <= 0
    ensures CompareVersionStrings(a, c, lower) <= 0
    ensures CompareVersionStrings(a, b, lower) < 0 || CompareVersionStrings(b, c, lower) < 0 ==>
              CompareVersionStrings(a, c, lower) < 0
  {
    var x, y, z := SplitVersionParts(a), SplitVersionParts(b), SplitVersionParts(c);
    var n := |x| + |y| + |z|;
    PaddingIsHarmless(x, y, 0, Longer(x, y), n, lower);
    PaddingIsHarmless(y, z, 0, Longer(y, z), n, lower);
    PaddingIsHarmless(x, z, 0, Longer(x, z), n, lower);
    NumericCompare(x, y, 0, n, lower);
    NumericCompare(y, z, 0, n, lower);
    NumericCompare(x, z, 0, n, lower);
    TransitiveFrom(Numbers(x), Numbers(y), Numbers(z), 0, n);
  }

  lemma {:induction false} TransitiveFrom(x: seq<int>, y: seq<int>, z: seq<int>, i: nat, n: nat)
    requires CompareNumbers(x, y, i, n) <= 0 && CompareNumbers(y, z, i, n) <= 0
    ensures CompareNumbers(x, z, i, n) <= 0
    ensures CompareNumbers(x, y, i, n) < 0 || CompareNumbers(y, z, i, n) < 0 ==> CompareNumbers(x, z, i, n) < 0
    decreases n - i
  {
    if i < n && At(x, i) == At(y, i) == At(z, i) {
      TransitiveFrom(x, y, z, i + 1, n);
    }
  }

  lemma FirstPartDecides(left: string, right: string, lower: string -> string)
    requires SplitVersionParts(left) != [] && SplitVersionParts(right) != []
    requires CompareParts(SplitVersionParts(left)[0], SplitVersionParts(right)[0], lower) != 0
    ensures CompareVersionStrings(left, right, lower)
         == CompareParts(SplitVersionParts(left)[0], SplitVersionParts(right)[0], lower)
  {
  }

  /** Two one-part versions compare as their parts. */
  lemma SingleParts(left: string, right: string, lower: string -> string)
    requires left != "" && Plain(left) && forall i :: 0 <= i < |left| ==> !VersionSeparator(left[i])
    requires right != "" && Plain(right) && forall i :: 0 <= i < |right| ==> !VersionSeparator(right[i])
    requires CompareParts(left, right, lower) != 0
    ensures CompareVersionStrings(left, right, lower) == CompareParts(left, right, lower)
  {
    SingleField(left);
    SingleField(right);
    FirstPartDecides(left, right, lower);
  }

  lemma NineTen(lower: string -> string)
    ensures CompareParts("9", "10", lower) == -1
  {
    assert DigitsValue("9") == DigitsValue("") * 10 + 9;
    assert "10"[..1] == "1";
    assert DigitsValue("1") == DigitsValue("") * 10 + 1;
  }

  lemma TextParts(l: string, r: string, lower: string -> string)
    requires (|l| == 2 && Digit(l[0]) && !Digit(l[1])) || (|r| == 2 && Digit(r[0]) && !Digit(r[1]))
    ensures CompareParts(l, r, lower) == CompareText(lower(l), lower(r))
  {
    assert Atoi(l).None? || Atoi(r).None?;
  }

  /** With letters in a component the order is no order at all: 9 < 10 < 1a < 9. */
  lemma MixedComponentsCycle(lower: string -> string)
    requires lower("9") == "9" && lower("10") == "10" && lower("1a") == "1a"
    ensures CompareVersionStrings("9", "10", lower) < 0
    ensures CompareVersionStrings("10", "1a", lower) < 0
    ensures CompareVersionStrings("1a", "9", lower) < 0
  {
    NineTen(lower);
    SingleParts("9", "10", lower);
    TextParts("10", "1a", lower);
    assert CompareText("10", "1a") == CompareText("0", "a") == -1;
    SingleParts("10", "1a", lower);
    TextParts("1a", "9", lower);
    SingleParts("1a", "9", lower);
  }

  // ---------- the code agrees with the comparison ----------

  predicate Plain(s: string) {
    forall i :: 0 <= i < |s| ==> !Space(s[i])
  }

  lemma {:induction false} TrimPlain(s: string)
    requires Plain(s)
    ensures Trim(s) == s
  {
  }

  lemma {:induction false} NoSeparators(s: string, separator: char -> bool, current: string)
    requires forall i :: 0 <= i < |s| ==> !separator(s[i])
    ensures Fields(s, separator, current) == if current + s == "" then [] else [current + s]
  {
    if s == "" {
      assert current + s == current;
    } else {
      NoSeparators(s[1..], separator, current + [s[0]]);
      assert current + [s[0]] + s[1..] == current + s;
    }
  }

  /** A string without separators or blanks is its own only part. */
  lemma SingleField(s: string)
    requires s != "" && Plain(s) && forall i :: 0 <= i < |s| ==> !VersionSeparator(s[i])
    ensures SplitVersionParts(s) == [s]
  {
    TrimPlain(s);
    NoSeparators(s, VersionSeparator, "");
    assert "" + s == s;
    assert TrimmedFields([s][..0]) == [];
  }

  lemma {:induction false} FieldsAgree(s: string, f: char -> bool, g: char -> bool, current: string)
    requires forall i :: 0 <= i < |s| ==> f(s[i]) == g(s[i])
    ensures Fields(s, f, current) == Fields(s, g, current)
  {
    if s != "" {
      FieldsAgree(s[1..], f, g, current);
      FieldsAgree(s[1..], f, g, "");
      FieldsAgree(s[1..], f, g, current + [s[0]]);
    }
  }

  lemma {:induction false} DigitFields(s: string, current: string)
    requires AllDigits(current)
    ensures forall f :: f in Fields(s, NotDigit, current) ==> f != "" && AllDigits(f)
  {
    if s != "" {
      DigitFields(s[1..], "");
      if Digit(s[0]) {
        DigitFields(s[1..], current + [s[0]]);
      }
    }
  }

  lemma {:induction false} TrimmedFieldsKeepAll(fields: seq<string>)
    requires forall i :: 0 <= i < |fields| ==> fields[i] != "" && Plain(fields[i])
    ensures TrimmedFields(fields) == fields
  {
    if fields != [] {
      TrimmedFieldsKeepAll(fields[..|fields| - 1]);
      TrimPlain(fields[|fields| - 1]);
      assert fields == fields[..|fields| - 1] + [fields[|fields| - 1]];
    }
  }

  /** Digits and dots only. */
  predicate Dotted(s: string) {
    s == "" || (Dotted(s[..|s| - 1]) && (Digit(s[|s| - 1]) || s[|s| - 1] == '.'))
  }

  lemma {:induction false} DottedMeans(s: string)
    ensures Dotted(s) <==> forall i :: 0 <= i < |s| ==> Digit(s[i]) || s[i] == '.'
  {
    if s != "" {
      DottedMeans(s[..|s| - 1]);
      assert forall i :: 0 <= i < |s| - 1 ==> s[i] == s[..|s| - 1][i];
    }
  }

  /** On dotted versions the two functions split alike. */
  lemma SplittersAgree(s: string)
    requires Dotted(s)
    ensures Trim(s) == s
    ensures SplitVersionParts(s) == Fields(s, NotDigit, "")
    ensures forall f :: f in SplitVersionParts(s) ==> f != "" && AllDigits(f)
  {
    DottedMeans(s);
    TrimPlain(s);
    FieldsAgree(s, VersionSeparator, NotDigit, "");
    DigitFields(s, "");
    var fields := Fields(s, NotDigit, "");
    forall i | 0 <= i < |fields| ensures fields[i] != "" && Plain(fields[i]) {
      assert fields[i] in fields;
      AllDigitsMeans(fields[i]);
    }
    TrimmedFieldsKeepAll(fields);
  }

  /** At most four components, each at most 999. */
  predicate Small(s: string) {
    var parts := SplitVersionParts(s);
    Dotted(s) && |parts| <= 4 && SmallParts(parts)
  }

  predicate SmallParts(parts: seq<string>) {
    parts == [] || (SmallParts(parts[..|parts| - 1]) && Atoi(parts[|parts| - 1]).Some? && Atoi(parts[|parts| - 1]).value <= 999)
  }

  lemma {:induction false} SmallPartsMeans(parts: seq<string>)
    requires SmallParts(parts)
    ensures Numeric(parts) && forall i :: 0 <= i < |parts| ==> Numbers(parts)[i] <= 999
  {
    if parts != [] {
      SmallPartsMeans(parts[..|parts| - 1]);
    }
  }

  function Power1000(n: nat): nat {
    if n == 0 then 1 else 1000 * Power1000(n - 1)
  }

  predicate Base1000Digits(numbers: seq<int>) {
    forall i :: 0 <= i < |numbers| ==> 0 <= numbers[i] <= 999
  }

  /** The first n numbers read in base 1000, zeros standing for missing ones. */
  function Base1000(numbers: seq<int>, i: nat, n: nat, acc: int): int
    decreases n - i
  {
    if i >= n then acc else Base1000(numbers, i + 1, n, acc * 1000 + At(numbers, i))
  }

  lemma {:induction false} Base1000Orders(l: seq<int>, r: seq<int>, i: nat, n: nat, a: int, b: int)
    requires Base1000Digits(l) && Base1000Digits(r) && a <= b
    ensures a < b ==> Base1000(l, i, n, a) < Base1000(r, i, n, b)
    ensures a == b ==> Sign(Base1000(l, i, n, a) - Base1000(r, i, n, b)) == CompareNumbers(l, r, i, n)
    decreases n - i
  {
    if i < n {
      var x, y := At(l, i), At(r, i);
      assert 0 <= x <= 999 && 0 <= y <= 999;
      if a * 1000 + x <= b * 1000 + y {
        Base1000Orders(l, r, i + 1, n, a * 1000 + x, b * 1000 + y);
      } else {
        Base1000Orders(r, l, i + 1, n, b * 1000 + y, a * 1000 + x);
      }
    }
  }

  lemma {:induction false} Base1000Shift(numbers: seq<int>, i: nat, n: nat, acc: int)
    requires |numbers| <= i <= n
    ensures Base1000(numbers, i, n, acc) == PadZeros(acc, n - i)
    decreases n - i
  {
    if i < n {
      Base1000Shift(numbers, i + 1, n, acc * 1000);
    }
  }

  lemma {:induction false} Base1000Split(numbers: seq<int>, i: nat, k: nat, n: nat, acc: int)
    requires i <= k <= n
    ensures Base1000(numbers, i, n, acc) == Base1000(numbers, k, n, Base1000(numbers, i, k, acc))
    decreases k - i
  {
    if i < k {
      Base1000Split(numbers, i + 1, k, n, acc * 1000 + At(numbers, i));
    }
  }

  lemma {:induction false} Base1000Range(numbers: seq<int>, k: nat)
    requires Base1000Digits(numbers)
    ensures 0 <= Base1000(numbers, 0, k, 0) < Power1000(k)
  {
    if k > 0 {
      Base1000Range(numbers, k - 1);
      Base1000Split(numbers, 0, k - 1, k, 0);
      assert 0 <= At(numbers, k - 1) <= 999;
      assert Base1000(numbers, 0, k, 0) == Base1000(numbers, 0, k - 1, 0) * 1000 + At(numbers, k - 1);
    }
  }

  lemma {:induction false} CodeIsBase1000(parts: seq<string>, numbers: seq<int>, i: nat, code: int)
    requires |numbers| == |parts| && i <= |parts| <= 4
    requires forall n :: 0 <= n < |parts| ==> Atoi(parts[n]) == Some(numbers[n]) && numbers[n] <= 999
    ensures CodeFrom(parts, i, code) == Base1000(numbers, i, |parts|, code)
    decreases |parts| - i
  {
    if i < |parts| {
      CodeIsBase1000(parts, numbers, i + 1, code * 1000 + numbers[i]);
    }
  }

  lemma DigitsAreNotNegative(part: string)
    requires AllDigits(part)
    ensures Value(part) >= 0
  {
    AllDigitsMeans(part);
    assert part != "" ==> Digit(part[0]);
  }

  lemma SmallDigits(s: string)
    requires Small(s)
    ensures Numeric(SplitVersionParts(s))
    ensures Base1000Digits(Numbers(SplitVersionParts(s)))
  {
    SplittersAgree(s);
    SmallPartsMeans(SplitVersionParts(s));
    var parts := SplitVersionParts(s);
    forall i | 0 <= i < |parts| ensures 0 <= Numbers(parts)[i] <= 999 {
      assert parts[i] in parts;
      DigitsAreNotNegative(parts[i]);
      NumericAt(parts, i);
    }
  }

  /** The code of a small version is its components read in base 1000, also when it is one bare number. */
  lemma SmallCode(s: string)
    requires Small(s)
    ensures ScriptVersionCode(s) == Base1000(Numbers(SplitVersionParts(s)), 0, |SplitVersionParts(s)|, 0)
  {
    SplittersAgree(s);
    SmallDigits(s);
    SmallPartsMeans(SplitVersionParts(s));
    forall i | 0 <= i < |SplitVersionParts(s)|
      ensures Atoi(SplitVersionParts(s)[i]) == Some(Numbers(SplitVersionParts(s))[i])
    {
      NumericAt(SplitVersionParts(s), i);
    }
    CodeIsBase1000(SplitVersionParts(s), Numbers(SplitVersionParts(s)), 0, 0);
    if s != "" && Atoi(s).Some? {
      DottedMeans(s);
      assert s[0] != '-' && s[0] != '+';
      AllDigitsMeans(s);
      NoSeparators(s, NotDigit, "");
      assert "" + s == s;
      assert SplitVersionParts(s) == [s];
      assert Numbers([s]) == [Value(s)];
      assert Base1000([Value(s)], 0, 1, 0) == Base1000([Value(s)], 1, 1, Value(s));
    }
  }

  /** A code after appending so many zero components. */
  function PadZeros(code: int, missing: nat): int
    decreases missing
  {
    if missing == 0 then code else PadZeros(code * 1000, missing - 1)
  }

  /**
   The version code against the comparison, for dotted versions of at most four components up to 999:
   after padding both codes to a common length their difference has the comparison's sign.
   */
  lemma CodeAgreesWithCompare(left: string, right: string, l: seq<string>, r: seq<string>, a: int, b: int, lower: string -> string)
    requires Small(left) && l == SplitVersionParts(left) && a == ScriptVersionCode(left)
    requires Small(right) && r == SplitVersionParts(right) && b == ScriptVersionCode(right)
    ensures CompareVersionStrings(left, right, lower)
         == Sign(PadZeros(a, Longer(l, r) - |l|) - PadZeros(b, Longer(l, r) - |r|))
  {
    SmallReads(left);
    SmallReads(right);
    ReadCodesAgree(left, right, l, r, a, b, lower);
  }

  lemma ReadCodesAgree(left: string, right: string, l: seq<string>, r: seq<string>, a: int, b: int, lower: string -> string)
    requires l == SplitVersionParts(left) && r == SplitVersionParts(right) && Reads(l, a) && Reads(r, b)
    ensures CompareVersionStrings(left, right, lower)
         == Sign(PadZeros(a, Longer(l, r) - |l|) - PadZeros(b, Longer(l, r) - |r|))
  {
    CodesAgree(l, r, a, b, Longer(l, r), lower);
  }

  /** The code is the parts read in base 1000. */
  ghost predicate Reads(parts: seq<string>, code: int) {
    Numeric(parts) && Base1000Digits(Numbers(parts)) && code == Base1000(Numbers(parts), 0, |parts|, 0)
  }

  lemma SmallReads(s: string)
    requires Small(s)
    ensures Reads(SplitVersionParts(s), ScriptVersionCode(s))
  {
    SmallDigits(s);
    SmallCode(s);
  }

  lemma {:induction false} Base1000Pads(numbers: seq<int>, n: nat, code: int)
    requires |numbers| <= n && code == Base1000(numbers, 0, |numbers|, 0)
    ensures Base1000(numbers, 0, n, 0) == PadZeros(code, n - |numbers|)
  {
    Base1000Split(numbers, 0, |numbers|, n, 0);
    Base1000Shift(numbers, |numbers|, n, code);
  }

  lemma CodesAgree(l: seq<string>, r: seq<string>, left: int, right: int, n: nat, lower: string -> string)
    requires Reads(l, left) && Reads(r, right)
    requires n == Longer(l, r)
    ensures CompareFrom(l, r, 0, n, lower) == Sign(PadZeros(left, n - |l|) - PadZeros(right, n - |r|))
  {
    NumericCompare(l, r, 0, n, lower);
    Base1000Orders(Numbers(l), Numbers(r), 0, n, 0, 0);
    Base1000Pads(Numbers(l), n, left);
    Base1000Pads(Numbers(r), n, right);
  }

  /** With equally many components the codes order versions exactly as the comparison does. */
  lemma CodeOrdersSameLength(left: string, right: string, lower: string -> string)
    requires Small(left) && Small(right) && |SplitVersionParts(left)| == |SplitVersionParts(right)|
    ensures CompareVersionStrings(left, right, lower) == Sign(ScriptVersionCode(left) - ScriptVersionCode(right))
  {
    var l, r := SplitVersionParts(left), SplitVersionParts(right);
    var a, b := ScriptVersionCode(left), ScriptVersionCode(right);
    CodeAgreesWithCompare(left, right, l, r, a, b, lower);
    assert Longer(l, r) == |l| == |r|;
  }

  /** A version of k small components has a code below 1000^k. */
  lemma CodeBound(s: string)
    requires Small(s)
    ensures 0 <= ScriptVersionCode(s) < Power1000(|SplitVersionParts(s)|)
  {
    SmallDigits(s);
    SmallCode(s);
    Base1000Range(Numbers(SplitVersionParts(s)), |SplitVersionParts(s)|);
  }

  lemma {:induction false} PaddingGrows(code: int, missing: nat)
    requires code >= 0
    ensures PadZeros(code, missing) >= code
    ensures code > 0 && missing > 0 ==> PadZeros(code, missing) > code
    ensures code == 0 ==> PadZeros(code, missing) == 0
    decreases missing
  {
    if missing > 0 {
      PaddingGrows(code * 1000, missing - 1);
    }
  }

  /** When the sign against b survives growing from a to p. */
  lemma PaddedSign(a: int, b: int, p: int)
    requires a >= 0 && b >= 0 && (if a == 0 then p == 0 else p > a)
    ensures Sign(p - b) == Sign(a - b) <==> a > b || p < b || (a == 0 && b == 0)
  {
  }

  /**
   The exact condition when the left version is the shorter one: the raw codes order the two correctly
   if and only if the left code is the larger one, or even padded it is the smaller one, or both are 0.
   */
  lemma CodeOrdersShorterIff(left: string, right: string, l: seq<string>, r: seq<string>, a: int, b: int, p: int, lower: string -> string)
    requires Small(left) && l == SplitVersionParts(left) && a == ScriptVersionCode(left)
    requires Small(right) && r == SplitVersionParts(right) && b == ScriptVersionCode(right)
    requires |l| < |r| && p == PadZeros(a, |r| - |l|)
    ensures CompareVersionStrings(left, right, lower) == Sign(a - b) <==> a > b || p < b || (a == 0 && b == 0)
  {
    SmallReads(left);
    SmallReads(right);
    ReadCodesOrder(left, right, l, r, a, b, p, lower);
  }

  lemma ReadCodesOrder(left: string, right: string, l: seq<string>, r: seq<string>, a: int, b: int, p: int, lower: string -> string)
    requires l == SplitVersionParts(left) && r == SplitVersionParts(right) && Reads(l, a) && Reads(r, b)
    requires |l| < |r| && p == PadZeros(a, |r| - |l|)
    ensures CompareVersionStrings(left, right, lower) == Sign(a - b) <==> a > b || p < b || (a == 0 && b == 0)
  {
    ReadCodesAgree(left, right, l, r, a, b, lower);
    SignOfReads(CompareVersionStrings(left, right, lower), l, r, a, b, p);
  }

  lemma SignOfReads(c: int, l: seq<string>, r: seq<string>, a: int, b: int, p: int)
    requires Reads(l, a) && Reads(r, b) && |l| < |r| && p == PadZeros(a, |r| - |l|)
    requires c == Sign(PadZeros(a, Longer(l, r) - |l|) - PadZeros(b, Longer(l, r) - |r|))
    ensures c == Sign(a - b) <==> a > b || p < b || (a == 0 && b == 0)
  {
    CodeNotNegative(l, a);
    CodeNotNegative(r, b);
    SignAgainstPadded(c, a, b, p, |l|, |r|, Longer(l, r));
  }

  lemma SignAgainstPadded(c: int, a: int, b: int, p: int, shorter: nat, longer: nat, n: nat)
    requires a >= 0 && b >= 0 && shorter < longer == n && p == PadZeros(a, longer - shorter)
    requires c == Sign(PadZeros(a, n - shorter) - PadZeros(b, n - longer))
    ensures c == Sign(a - b) <==> a > b || p < b || (a == 0 && b == 0)
  {
    PaddingGrows(a, longer - shorter);
    PaddedSign(a, b, p);
  }

  lemma CodeNotNegative(parts: seq<string>, code: int)
    requires Reads(parts, code)
    ensures code >= 0
  {
    Base1000Range(Numbers(parts), |parts|);
  }

  /** The mirror image, when the left version is the longer one. */
  lemma CodeOrdersLongerIff(left: string, right: string, l: seq<string>, r: seq<string>, a: int, b: int, p: int, lower: string -> string)
    requires Small(left) && l == SplitVersionParts(left) && a == ScriptVersionCode(left)
    requires Small(right) && r == SplitVersionParts(right) && b == ScriptVersionCode(right)
    requires |l| > |r| && p == PadZeros(b, |l| - |r|)
    ensures CompareVersionStrings(left, right, lower) == Sign(a - b) <==> b > a || p < a || (a == 0 && b == 0)
  {
    CompareIsAntisymmetric(left, right, lower);
    CodeOrdersShorterIff(right, left, r, l, b, a, p, lower);
  }

  lemma OnePointFiveParts()
    ensures Dotted("1.5") && Fields("1.5", NotDigit, "") == ["1", "5"]
  {
    DottedMeans("1.5");
    assert "1.5"[1..] == ".5" && ".5"[1..] == "5";
    NoSeparators("5", NotDigit, "");
    assert "" + "5" == "5" && "" + ["1.5"[0]] == "1";
    assert NotDigit(".5"[0]) && !NotDigit("1.5"[0]);
    assert Fields(".5", NotDigit, "1") == ["1"] + Fields("5", NotDigit, "");
  }

  lemma OneFiveCode()
    ensures CodeFrom(["1", "5"], 0, 0) == 1005
  {
    assert Atoi("1") == Some(1) && Atoi("5") == Some(5) by {
      assert DigitsValue("1") == DigitsValue("") * 10 + 1;
      assert DigitsValue("5") == DigitsValue("") * 10 + 5;
    }
    assert CodeFrom(["1", "5"], 0, 0) == CodeFrom(["1", "5"], 1, 1) == CodeFrom(["1", "5"], 2, 1005) == 1005;
  }

  lemma OnePointFive()
    ensures SplitVersionParts("1.5") == ["1", "5"]
    ensures ScriptVersionCode("1.5") == 1005
  {
    OnePointFiveParts();
    SplittersAgree("1.5");
    assert !Digit("1.5"[1]);
    AllDigitsMeans("1.5");
    OneFiveCode();
  }

  lemma Two()
    ensures SplitVersionParts("2") == ["2"]
    ensures ScriptVersionCode("2") == 2
  {
    SingleField("2");
    TrimPlain("2");
    assert DigitsValue("2") == DigitsValue("") * 10 + 2;
  }

  lemma TwoAfterOne(lower: string -> string)
    ensures CompareParts("2", "1", lower) == 1
  {
    assert DigitsValue("2") == DigitsValue("") * 10 + 2;
    assert DigitsValue("1") == DigitsValue("") * 10 + 1;
  }

  /** With different lengths the raw codes mislead: 2 is newer than 1.5, its code is smaller. */
  lemma CodeMisleadsAcrossLengths(lower: string -> string)
    ensures CompareVersionStrings("2", "1.5", lower) > 0
    ensures ScriptVersionCode("2") < ScriptVersionCode("1.5")
  {
    OnePointFive();
    Two();
    TwoAfterOne(lower);
    FirstPartDecides("2", "1.5", lower);
  }
}
