/**
 What the string functions under the handlers mean, without their recursion: trimming, reading an integer
 and splitting a version.
 */
module TextLaw {
  import opened Common
  import opened Versions
  import F = Files

  // ---------- trimming ----------

  predicate Blank(s: string) {
    forall i :: 0 <= i < |s| ==> Space(s[i])
  }

  /** No blank at either end. */
  predicate Tight(s: string) {
    s == "" || (!Space(s[0]) && !Space(s[|s| - 1]))
  }

  lemma {:induction false} TrimLeftSplits(s: string) returns (left: string)
    ensures s == left + TrimLeft(s) && Blank(left)
    ensures TrimLeft(s) != "" ==> !Space(TrimLeft(s)[0])
  {
    left := "";
    if s != "" && Space(s[0]) {
      var rest := TrimLeftSplits(s[1..]);
      left := [s[0]] + rest;
    }
  }

  lemma {:induction false} TrimRightSplits(s: string) returns (right: string)
    ensures s == TrimRight(s) + right && Blank(right)
    ensures TrimRight(s) != "" ==> !Space(TrimRight(s)[|TrimRight(s)| - 1])
  {
    right := "";
    if s != "" && Space(s[|s| - 1]) {
      var rest := TrimRightSplits(s[..|s| - 1]);
      right := rest + [s[|s| - 1]];
    }
  }

  /** A text is its trimmed core between blanks. */
  lemma TrimSplits(s: string) returns (left: string, right: string)
    ensures s == left + Trim(s) + right && Blank(left) && Blank(right) && Tight(Trim(s))
  {
    left := TrimLeftSplits(s);
    var rest := TrimLeft(s);
    right := TrimRightSplits(rest);
    if Trim(s) != "" {
      assert Trim(s)[0] == rest[0];
    }
    assert left + Trim(s) + right == left + rest;
  }

  lemma {:induction false} TrimLeftDrops(left: string, s: string)
    requires Blank(left)
    ensures TrimLeft(left + s) == TrimLeft(s)
  {
    if left == "" {
      assert left + s == s;
    } else {
      assert (left + s)[1..] == left[1..] + s;
      TrimLeftDrops(left[1..], s);
    }
  }

  lemma {:induction false} TrimRightDrops(s: string, right: string)
    requires Blank(right)
    ensures TrimRight(s + right) == TrimRight(s)
  {
    if right == "" {
      assert s + right == s;
    } else {
      var n := |right| - 1;
      assert (s + right)[..|s + right| - 1] == s + right[..n];
      TrimRightDrops(s, right[..n]);
    }
  }

  /** And whatever stands between blanks, with none at its own ends, is that core. */
  lemma TrimIs(left: string, core: string, right: string)
    requires Blank(left) && Blank(right) && Tight(core)
    ensures Trim(left + core + right) == core
  {
    assert left + core + right == left + (core + right);
    TrimLeftDrops(left, core + right);
    if core == "" {
      assert core + right == right + "";
      TrimLeftDrops(right, "");
    } else {
      assert TrimLeft(core + right) == core + right;
      TrimRightDrops(core, right);
    }
  }

  lemma WhatIsBlank()
    ensures Space(' ') && Space('\t') && Space('\n') && Space('\r')
    ensures forall c: char :: '!' <= c <= '~' ==> !Space(c)
  {
  }

  // ---------- integers ----------

  lemma {:induction false} DecimalReads(n: nat)
    ensures AllDigits(F.Decimal(n)) && F.Decimal(n) != "" && Digit(F.Decimal(n)[0]) && DigitsValue(F.Decimal(n)) == n
  {
    if n >= 10 {
      DecimalReads(n / 10);
      var s := F.Decimal(n);
      assert s[..|s| - 1] == F.Decimal(n / 10);
      assert s[0] == F.Decimal(n / 10)[0];
    } else {
      assert F.Decimal(n)[..0] == "";
    }
  }

  /** Reading inverts writing, with or without a sign, within 64 bits and not beyond. */
  lemma AtoiReadsDecimal(n: nat)
    ensures Atoi(F.Decimal(n)) == Atoi("+" + F.Decimal(n)) == if n <= 0x7FFF_FFFF_FFFF_FFFF then Some(n) else None
    ensures var r := Atoi("-" + F.Decimal(n)); if n <= 0x8000_0000_0000_0000 then r.Some? && r.value == 0 - n else r.None?
  {
    DecimalReads(n);
    assert ("+" + F.Decimal(n))[1..] == F.Decimal(n) && ("-" + F.Decimal(n))[1..] == F.Decimal(n);
  }

  /** Anything but digits after one optional sign is no integer. */
  lemma AtoiRefuses(s: string)
    ensures Atoi(s).Some? ==>
              var digits := if s != "" && s[0] in {'-', '+'} then s[1..] else s;
              digits != "" && forall i :: 0 <= i < |digits| ==> '0' <= digits[i] <= '9'
  {
    var digits := if s != "" && s[0] in {'-', '+'} then s[1..] else s;
    AllDigitsMeans(digits);
  }

  // ---------- order ----------

  /** Text is compared at the first character that differs; a prefix comes first. */
  lemma {:induction false} CompareTextIs(a: string, b: string) returns (k: nat)
    ensures k <= |a| && k <= |b| && a[..k] == b[..k]
    ensures CompareText(a, b)
         == if k == |a| == |b| then 0
            else if k == |a| then -1
            else if k == |b| then 1
            else if a[k] < b[k] then -1 else 1
    ensures k < |a| && k < |b| ==> a[k] != b[k]
  {
    if a == "" || b == "" || a[0] != b[0] {
      k := 0;
    } else {
      k := CompareTextIs(a[1..], b[1..]);
      assert a[..k + 1] == [a[0]] + a[1..][..k] && b[..k + 1] == [b[0]] + b[1..][..k];
      k := k + 1;
    }
  }

  /** Two components are compared as numbers if both are integers, and as lower-case text otherwise. */
  lemma ComparePartsIs(l: string, r: string, lower: string -> string)
    ensures var a, b, c := Atoi(l), Atoi(r), CompareParts(l, r, lower);
      if a.Some? && b.Some? then (c < 0 <==> a.value < b.value) && (c == 0 <==> a.value == b.value) && (c > 0 <==> a.value > b.value)
      else c == CompareText(lower(l), lower(r))
  {
  }

  /** The first components that differ decide; a missing one counts as 0. */
  lemma {:induction false} FirstDifferenceDecides(l: seq<string>, r: seq<string>, i: nat, n: nat, k: nat, lower: string -> string)
    requires i <= k <= n
    requires forall j :: i <= j < k ==> CompareParts(PartAt(l, j), PartAt(r, j), lower) == 0
    requires k < n ==> CompareParts(PartAt(l, k), PartAt(r, k), lower) != 0
    ensures CompareFrom(l, r, i, n, lower) == if k < n then CompareParts(PartAt(l, k), PartAt(r, k), lower) else 0
    ensures |l| <= k ==> PartAt(l, k) == "0"
    decreases n - i
  {
    if i < k {
      FirstDifferenceDecides(l, r, i + 1, n, k, lower);
    }
  }

  // ---------- versions ----------

  /** Components with one separator between each two. */
  function Join(parts: seq<string>, separators: string): string
    requires parts != [] && |separators| == |parts| - 1
  {
    if |parts| == 1 then parts[0] else parts[0] + [separators[0]] + Join(parts[1..], separators[1..])
  }

  predicate Component(part: string) {
    part != "" && forall i :: 0 <= i < |part| ==> !Space(part[i]) && part[i] !in {'.', '-', '_', '+', ' '}
  }

  lemma {:induction false} FieldsPrefix(part: string, rest: string, separator: char -> bool, current: string)
    requires forall i :: 0 <= i < |part| ==> !separator(part[i])
    ensures Fields(part + rest, separator, current) == Fields(rest, separator, current + part)
  {
    if part == "" {
      assert part + rest == rest && current + part == current;
    } else {
      assert (part + rest)[1..] == part[1..] + rest;
      FieldsPrefix(part[1..], rest, separator, current + [part[0]]);
      assert current + [part[0]] + part[1..] == current + part;
    }
  }

  lemma {:induction false} JoinFields(parts: seq<string>, separators: string, separator: char -> bool)
    requires parts != [] && |separators| == |parts| - 1
    requires forall i :: 0 <= i < |parts| ==> parts[i] != "" && forall k :: 0 <= k < |parts[i]| ==> !separator(parts[i][k])
    requires forall i :: 0 <= i < |separators| ==> separator(separators[i])
    ensures Fields(Join(parts, separators), separator, "") == parts
  {
    var first := parts[0];
    if |parts| == 1 {
      NoSeparators(first, separator, "");
      assert "" + first == first;
    } else {
      var rest := Join(parts[1..], separators[1..]);
      JoinFields(parts[1..], separators[1..], separator);
      var tail := [separators[0]] + rest;
      assert Join(parts, separators) == first + tail;
      FieldsPrefix(first, tail, separator, "");
      assert "" + first == first && tail[1..] == rest;
      assert [first] + parts[1..] == parts;
    }
  }

  /** A joined version begins like its first component and ends like its last. */
  lemma {:induction false} JoinEnds(parts: seq<string>, separators: string)
    requires parts != [] && |separators| == |parts| - 1
    requires forall i :: 0 <= i < |parts| ==> parts[i] != ""
    ensures var s, last := Join(parts, separators), parts[|parts| - 1];
            s != "" && s[0] == parts[0][0] && s[|s| - 1] == last[|last| - 1]
  {
    if |parts| > 1 {
      JoinEnds(parts[1..], separators[1..]);
    }
  }

  /** Splitting a version inverts joining its components, whichever of the five separators stand between them. */
  lemma SplitInvertsJoin(parts: seq<string>, separators: string)
    requires parts != [] && |separators| == |parts| - 1
    requires forall i :: 0 <= i < |parts| ==> Component(parts[i])
    requires forall i :: 0 <= i < |separators| ==> separators[i] in {'.', '-', '_', '+', ' '}
    ensures SplitVersionParts(Join(parts, separators)) == parts
  {
    var s := Join(parts, separators);
    JoinFields(parts, separators, VersionSeparator);
    JoinEnds(parts, separators);
    TrimIs("", s, "");
    assert "" + s + "" == s;
    TrimmedFieldsKeepAll(parts);
  }

  // ---------- version codes ----------

  /** The i-th and later of these components, at most the first four, each as at most 999, read in base 1000. */
  function CodeOf(numbers: seq<nat>, i: nat, code: int): int
    decreases |numbers| - i
  {
    if i >= |numbers| || i >= 4 then code
    else CodeOf(numbers, i + 1, code * 1000 + if numbers[i] < 999 then numbers[i] else 999)
  }

  function Decimals(numbers: seq<nat>): (parts: seq<string>)
    ensures |parts| == |numbers|
  {
    if numbers == [] then [] else Decimals(numbers[..|numbers| - 1]) + [F.Decimal(numbers[|numbers| - 1])]
  }

  lemma {:induction false} DecimalsAt(numbers: seq<nat>, i: nat)
    requires i < |numbers|
    ensures Decimals(numbers)[i] == F.Decimal(numbers[i])
  {
    if i < |numbers| - 1 {
      DecimalsAt(numbers[..|numbers| - 1], i);
    }
  }

  lemma {:induction false} CodeFromIs(numbers: seq<nat>, i: nat, code: int)
    requires forall k :: 0 <= k < |numbers| ==> numbers[k] <= 0x7FFF_FFFF_FFFF_FFFF
    ensures CodeFrom(Decimals(numbers), i, code) == CodeOf(numbers, i, code)
    decreases |numbers| - i
  {
    if i < |numbers| && i < 4 {
      DecimalsAt(numbers, i);
      AtoiReadsDecimal(numbers[i]);
      CodeFromIs(numbers, i + 1, code * 1000 + if numbers[i] > 999 then 999 else numbers[i]);
    }
  }

  predicate DigitsOnly(part: string) {
    part != "" && forall i :: 0 <= i < |part| ==> '0' <= part[i] <= '9'
  }

  lemma SecondField(parts: seq<string>, separators: string)
    requires |parts| > 1 && |separators| == |parts| - 1
    ensures |parts[0]| < |Join(parts, separators)| && Join(parts, separators)[|parts[0]|] == separators[0]
  {
    assert Join(parts, separators) == parts[0] + ([separators[0]] + Join(parts[1..], separators[1..]));
  }

  /**
   The code of a version of two or more numbers is its first four components in base 1000, each capped at
   999, whatever stands between them; one bare number is its own code, and nothing at all is 0.
   */
  lemma VersionCodeIs(numbers: seq<nat>, separators: string)
    requires |numbers| >= 2 && |separators| == |numbers| - 1
    requires forall k :: 0 <= k < |numbers| ==> numbers[k] <= 0x7FFF_FFFF_FFFF_FFFF
    requires forall i :: 0 <= i < |separators| ==> !('0' <= separators[i] <= '9')
    ensures ScriptVersionCode(Join(Decimals(numbers), separators)) == CodeOf(numbers, 0, 0)
  {
    var parts := Decimals(numbers);
    forall i | 0 <= i < |parts| ensures DigitsOnly(parts[i]) {
      DecimalsAt(numbers, i);
      DecimalReads(numbers[i]);
      AllDigitsMeans(parts[i]);
    }
    JoinFields(parts, separators, NotDigit);
    JoinEnds(parts, separators);
    var s := Join(parts, separators);
    TrimIs("", s, "");
    assert "" + s + "" == s;
    SecondField(parts, separators);
    NotInteger(s, |parts[0]|);
    CodeFromIs(numbers, 0, 0);
  }

  lemma NotInteger(s: string, i: nat)
    requires i < |s| && Digit(s[0]) && !Digit(s[i])
    ensures Atoi(s).None?
  {
    AtoiRefuses(s);
  }

  lemma BareNumberIsItsCode(n: nat)
    requires n <= 0x7FFF_FFFF_FFFF_FFFF
    ensures ScriptVersionCode(F.Decimal(n)) == n && ScriptVersionCode("") == 0
  {
    DecimalReads(n);
    AtoiReadsDecimal(n);
    AllDigitsMeans(F.Decimal(n));
    TrimIs("", F.Decimal(n), "");
    assert "" + F.Decimal(n) + "" == F.Decimal(n);
  }
}
