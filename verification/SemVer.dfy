/** Semantic versions: parsing, the ordering of section 11 of Semantic Versioning 2.0.0, and version ranges. */
module SemVer {
  import opened Wrappers
  import opened Decimal

  datatype Version = Version(major: nat, minor: nat, patch: nat, prerelease: string)

  // ---------- Prerelease identifiers ----------

  /** Python's `split(".")`: the empty string has one empty part. */
  function Split(s: string): (parts: seq<string>)
    ensures parts != []
  {
    if s == "" then [""]
    else
      var rest := Split(s[1..]);
      if s[0] == '.' then [""] + rest else [[s[0]] + rest[0]] + rest[1..]
  }

  function Join(parts: seq<string>): string
    requires parts != []
  {
    if |parts| == 1 then parts[0] else parts[0] + "." + Join(parts[1..])
  }

  lemma {:induction false} JoinSplit(s: string)
    ensures Join(Split(s)) == s
  {
    if s != "" {
      var rest := Split(s[1..]);
      JoinSplit(s[1..]);
      var parts := Split(s);
      assert parts[1..] == if s[0] == '.' then rest else rest[1..];
    }
  }

  predicate IdentifierChar(c: char) {
    IsDigit(c) || 'a' <= c <= 'z' || 'A' <= c <= 'Z' || c == '-'
  }

  predicate Numeric(id: string) {
    id != "" && AllDigits(id)
  }

  predicate ValidIdentifier(id: string) {
    && id != "" && (forall i :: 0 <= i < |id| ==> IdentifierChar(id[i]))
    && (AllDigits(id) && |id| > 1 ==> id[0] != '0')
  }

  predicate AllValid(ids: seq<string>) {
    forall i :: 0 <= i < |ids| ==> ValidIdentifier(ids[i])
  }

  predicate Valid(v: Version) {
    v.prerelease == "" || AllValid(Split(v.prerelease))
  }

  // ---------- The comparison as the code does it ----------

  /** Code-point order of strings. */
  predicate TextLess(a: string, b: string) {
    if b == "" then false
    else if a == "" then true
    else a[0] < b[0] || (a[0] == b[0] && TextLess(a[1..], b[1..]))
  }

  /** The decision for the first pair of identifiers that differ. */
  predicate IdentifierLess(a: string, b: string) {
    if Numeric(a) && Numeric(b) then Parse(a) < Parse(b)
    else if Numeric(a) != Numeric(b) then Numeric(a)
    else TextLess(a, b)
  }

  predicate IdentifiersLess(a: seq<string>, b: seq<string>) {
    if a == [] || b == [] then |a| < |b|
    else if a[0] == b[0] then IdentifiersLess(a[1..], b[1..])
    else IdentifierLess(a[0], b[0])
  }

  predicate Less(a: Version, b: Version) {
    if a.major != b.major then a.major < b.major
    else if a.minor != b.minor then a.minor < b.minor
    else if a.patch != b.patch then a.patch < b.patch
    else if a.prerelease == "" && b.prerelease != "" then false
    else if a.prerelease != "" && b.prerelease == "" then true
    else IdentifiersLess(Split(a.prerelease), Split(b.prerelease))
  }

  // The operators that Python derives from `<` and `==`.
  predicate AtMost(a: Version, b: Version) {
    Less(a, b) || a == b
  }

  predicate AtLeast(a: Version, b: Version) {
    !Less(a, b)
  }

  predicate Greater(a: Version, b: Version) {
    !Less(a, b) && a != b
  }

  // ---------- The same order as section 11 words it ----------

  datatype Identifier = Number(value: nat) | Text(text: string)

  function Classify(id: string): Identifier {
    if Numeric(id) then Number(Parse(id)) else Text(id)
  }

  /** Numbers compare numerically, texts by their first differing character, and numbers precede texts. */
  ghost predicate LowerIdentifier(a: Identifier, b: Identifier) {
    match (a, b)
    case (Number(m), Number(n)) => m < n
    case (Number(_), Text(_)) => true
    case (Text(_), Number(_)) => false
    case (Text(s), Text(t)) =>
      exists k :: 0 <= k <= |s| && k < |t| && s[..k] == t[..k] && (k == |s| || s[k] < t[k])
  }

  /** At the first difference the lower identifier decides; if there is none, fewer fields are lower. */
  ghost predicate LowerPrerelease(a: seq<string>, b: seq<string>) {
    exists k :: DecidedAt(a, b, k)
  }

  ghost predicate DecidedAt(a: seq<string>, b: seq<string>, k: int) {
    0 <= k <= |a| && k < |b| && a[..k] == b[..k] &&
    (k == |a| || (a[k] != b[k] && LowerIdentifier(Classify(a[k]), Classify(b[k]))))
  }

  ghost predicate LowerPrecedence(a: Version, b: Version) {
    || a.major < b.major
    || (a.major == b.major && a.minor < b.minor)
    || (a.major == b.major && a.minor == b.minor && a.patch < b.patch)
    || (a.major == b.major && a.minor == b.minor && a.patch == b.patch &&
        a.prerelease != "" &&
        (b.prerelease == "" || LowerPrerelease(Split(a.prerelease), Split(b.prerelease))))
  }

  // ---------- Ranges ----------

  datatype Operator = Equal | AtLeastOp | AtMostOp | GreaterOp | LessOp

  datatype Comparator = Comparator(operator: Operator, required: Version)

  datatype Range = AnyVersion | AllOf(comparators: seq<Comparator>)

  predicate Satisfies(v: Version, c: Comparator) {
    match c.operator
    case Equal => v == c.required
    case AtLeastOp => AtLeast(v, c.required)
    case AtMostOp => AtMost(v, c.required)
    case GreaterOp => Greater(v, c.required)
    case LessOp => Less(v, c.required)
  }

  predicate Matches(r: Range, v: Version) {
    r.AllOf? ==> forall i :: 0 <= i < |r.comparators| ==> Satisfies(v, r.comparators[i])
  }

  predicate ValidRange(r: Range) {
    r.AllOf? ==> forall i :: 0 <= i < |r.comparators| ==> Valid(r.comparators[i].required)
  }

  // ---------- The code's order is section 11's ----------

  lemma {:induction false} TextLessSpec(s: string, t: string)
    ensures TextLess(s, t) <==> exists k :: 0 <= k <= |s| && k < |t| && s[..k] == t[..k] && (k == |s| || s[k] < t[k])
  {
    if s != "" && t != "" {
      TextLessSpec(s[1..], t[1..]);
      if TextLess(s, t) {
        if s[0] < t[0] {
          assert s[..0] == t[..0];
        } else {
          var k :| 0 <= k <= |s[1..]| && k < |t[1..]| && s[1..][..k] == t[1..][..k]
              && (k == |s[1..]| || s[1..][k] < t[1..][k]);
          assert s[..k + 1] == [s[0]] + s[1..][..k] && t[..k + 1] == [t[0]] + t[1..][..k];
          assert s[..k + 1] == t[..k + 1];
        }
      }
      forall k | 0 <= k <= |s| && k < |t| && s[..k] == t[..k] && (k == |s| || s[k] < t[k]) ensures TextLess(s, t) {
        if k > 0 {
          assert s[..k][0] == t[..k][0];
          assert s[1..][..k - 1] == s[..k][1..] && t[1..][..k - 1] == t[..k][1..];
        }
      }
    } else if s == "" && t != "" {
      assert s[..0] == t[..0];
    }
  }

  lemma IdentifierLessSpec(a: string, b: string)
    ensures IdentifierLess(a, b) <==> LowerIdentifier(Classify(a), Classify(b))
  {
    TextLessSpec(a, b);
  }

  lemma {:induction false} IdentifiersLessSpec(a: seq<string>, b: seq<string>)
    ensures IdentifiersLess(a, b) <==> LowerPrerelease(a, b)
  {
    if a == [] || b == [] {
      if |a| < |b| {
        assert DecidedAt(a, b, 0);
      }
    } else if a[0] != b[0] {
      IdentifierLessSpec(a[0], b[0]);
      assert a[..0] == b[..0];
      assert DecidedAt(a, b, 0) <==> IdentifierLess(a[0], b[0]);
      forall k | 0 < k <= |a| && k < |b| ensures a[..k] != b[..k] {
        assert a[..k][0] != b[..k][0];
      }
    } else {
      IdentifiersLessSpec(a[1..], b[1..]);
      LowerTail(a, b);
    }
  }

  lemma DecidedOneLater(a: seq<string>, b: seq<string>, k: int)
    requires a != [] && b != [] && a[0] == b[0]
    ensures DecidedAt(a, b, k + 1) <==> DecidedAt(a[1..], b[1..], k)
    ensures !DecidedAt(a, b, 0)
  {
    if 0 <= k <= |a| - 1 && k < |b| - 1 {
      assert a[..k + 1] == [a[0]] + a[1..][..k] && b[..k + 1] == [b[0]] + b[1..][..k];
      assert a[1..][..k] == a[..k + 1][1..] && b[1..][..k] == b[..k + 1][1..];
    }
  }

  lemma LowerTail(a: seq<string>, b: seq<string>)
    requires a != [] && b != [] && a[0] == b[0]
    ensures LowerPrerelease(a, b) <==> LowerPrerelease(a[1..], b[1..])
  {
    if LowerPrerelease(a, b) {
      var k :| DecidedAt(a, b, k);
      DecidedOneLater(a, b, k - 1);
    }
    if LowerPrerelease(a[1..], b[1..]) {
      var k :| DecidedAt(a[1..], b[1..], k);
      DecidedOneLater(a, b, k);
    }
  }

  lemma NothingBelowEmpty()
    ensures !IdentifiersLess(Split(""), Split(""))
  {
    assert [""][1..] == [];
  }

  /** The comparison is the precedence of section 11, for all versions. */
  lemma LessIsPrecedence(a: Version, b: Version)
    ensures Less(a, b) <==> LowerPrecedence(a, b)
  {
    IdentifiersLessSpec(Split(a.prerelease), Split(b.prerelease));
    NothingBelowEmpty();
  }

  // ---------- A strict total order on parsed versions ----------

  lemma {:induction false} TextOrder(a: string, b: string, c: string)
    ensures !TextLess(a, a)
    ensures TextLess(a, b) || a == b || TextLess(b, a)
    ensures TextLess(a, b) && TextLess(b, c) ==> TextLess(a, c)
  {
    if a != "" && b != "" && c != "" {
      TextOrder(a[1..], b[1..], c[1..]);
      assert a == [a[0]] + a[1..] && b == [b[0]] + b[1..];
    } else if a != "" && b != "" {
      TextOrder(a[1..], b[1..], "");
      assert a == [a[0]] + a[1..] && b == [b[0]] + b[1..];
    } else if a != "" {
      TextOrder(a[1..], "", "");
    }
  }

  lemma IdentifierOrder(a: string, b: string, c: string)
    requires ValidIdentifier(a) && ValidIdentifier(b)
    ensures !IdentifierLess(a, a)
    ensures IdentifierLess(a, b) || a == b || IdentifierLess(b, a)
    ensures IdentifierLess(a, b) && IdentifierLess(b, c) ==> IdentifierLess(a, c)
  {
    TextOrder(a, b, c);
    if Numeric(a) && Numeric(b) && Parse(a) == Parse(b) {
      ParseIsInjective(a, b);
    }
  }

  lemma {:induction false} IdentifiersOrder(a: seq<string>, b: seq<string>, c: seq<string>)
    requires AllValid(a) && AllValid(b) && AllValid(c)
    ensures !IdentifiersLess(a, a)
    ensures IdentifiersLess(a, b) || a == b || IdentifiersLess(b, a)
    ensures IdentifiersLess(a, b) && IdentifiersLess(b, c) ==> IdentifiersLess(a, c)
  {
    if a != [] {
      IdentifiersOrder(a[1..], if b == [] then [] else b[1..], if c == [] then [] else c[1..]);
      if b != [] {
        IdentifierOrder(a[0], b[0], a[0]);
        IdentifierOrder(b[0], a[0], b[0]);
        assert a == [a[0]] + a[1..] && b == [b[0]] + b[1..];
        if c != [] {
          IdentifierOrder(a[0], b[0], c[0]);
        }
      }
    }
  }

  lemma PrereleaseOrder(a: Version, b: Version, c: Version)
    requires Valid(a) && Valid(b) && Valid(c)
    requires a.prerelease != "" && b.prerelease != "" && c.prerelease != ""
    ensures var x, y, z := Split(a.prerelease), Split(b.prerelease), Split(c.prerelease);
            && !IdentifiersLess(x, x)
            && (IdentifiersLess(x, y) || a.prerelease == b.prerelease || IdentifiersLess(y, x))
            && (IdentifiersLess(x, y) && IdentifiersLess(y, z) ==> IdentifiersLess(x, z))
  {
    IdentifiersOrder(Split(a.prerelease), Split(b.prerelease), Split(c.prerelease));
    JoinSplit(a.prerelease);
    JoinSplit(b.prerelease);
  }

  lemma Irreflexive(a: Version)
    requires Valid(a)
    ensures !Less(a, a)
  {
    if a.prerelease != "" {
      PrereleaseOrder(a, a, a);
    } else {
      NothingBelowEmpty();
    }
  }

  lemma Trichotomous(a: Version, b: Version)
    requires Valid(a) && Valid(b)
    ensures Less(a, b) || a == b || Less(b, a)
  {
    if a.prerelease != "" && b.prerelease != "" {
      PrereleaseOrder(a, b, a);
    }
  }

  lemma Transitive(a: Version, b: Version, c: Version)
    requires Valid(a) && Valid(b) && Valid(c) && Less(a, b) && Less(b, c)
    ensures Less(a, c)
  {
    NothingBelowEmpty();
    if a.prerelease != "" && b.prerelease != "" && c.prerelease != "" {
      PrereleaseOrder(a, b, c);
    }
  }

  /** On parsed versions `<` is a strict total order that agrees with field equality. */
  lemma StrictTotalOrder(a: Version, b: Version, c: Version)
    requires Valid(a) && Valid(b) && Valid(c)
    ensures !(Less(a, b) && Less(b, a)) && !(Less(a, b) && a == b)
    ensures Less(a, b) || a == b || Less(b, a)
    ensures Less(a, b) && Less(b, c) ==> Less(a, c)
    ensures AtLeast(a, b) <==> AtMost(b, a)
    ensures Greater(a, b) <==> Less(b, a)
  {
    Irreflexive(a);
    Irreflexive(b);
    Trichotomous(a, b);
    if Less(a, b) && Less(b, a) {
      Transitive(a, b, a);
    }
    if Less(a, b) && Less(b, c) {
      Transitive(a, b, c);
    }
  }

  lemma SplitOne(c: char)
    requires c != '.'
    ensures Split([c]) == [[c]]
  {
    assert [c][1..] == "" && [""][1..] == [] && [c] + "" == [c];
  }

  lemma SplitTwo(c: char, d: char)
    requires c != '.' && d != '.'
    ensures Split([c, d]) == [[c, d]]
  {
    SplitOne(d);
    assert [c, d][1..] == [d] && [[d]][1..] == [] && [c] + [d] == [c, d];
  }

  /** The leading-zero rule of the parser is needed: without it two versions are neither ordered nor equal. */
  lemma LeadingZerosWouldBreakTheOrder()
    ensures var a, b := Version(1, 0, 0, "1"), Version(1, 0, 0, "01");
            Valid(a) && !Valid(b) && !Less(a, b) && a != b && !Less(b, a)
  {
    SplitOne('1');
    SplitTwo('0', '1');
    assert Parse("1") == 1 by {
      assert "1"[..0] == "";
    }
    assert Parse("01") == 1 by {
      assert "01"[..1] == "0" && "0"[..0] == "";
    }
    assert !ValidIdentifier("01");
    assert ValidIdentifier("1");
    assert ["01"][0] != ["1"][0];
  }

  lemma ComparatorIsConvex(c: Comparator, low: Version, v: Version, high: Version)
    requires Valid(c.required) && Valid(low) && Valid(v) && Valid(high)
    requires AtMost(low, v) && AtMost(v, high) && Satisfies(low, c) && Satisfies(high, c)
    ensures Satisfies(v, c)
  {
    var r := c.required;
    StrictTotalOrder(low, v, r);
    StrictTotalOrder(v, high, r);
    StrictTotalOrder(r, low, v);
    StrictTotalOrder(v, r, high);
    StrictTotalOrder(low, r, v);
    StrictTotalOrder(high, r, v);
  }

  /** If two versions match a range, so does every version between them. */
  lemma RangeIsConvex(r: Range, low: Version, v: Version, high: Version)
    requires ValidRange(r) && Valid(low) && Valid(v) && Valid(high)
    requires AtMost(low, v) && AtMost(v, high) && Matches(r, low) && Matches(r, high)
    ensures Matches(r, v)
  {
    if r.AllOf? {
      forall i | 0 <= i < |r.comparators| ensures Satisfies(v, r.comparators[i]) {
        ComparatorIsConvex(r.comparators[i], low, v, high);
      }
    }
  }

  // ---------- Parsing ----------

  predicate SuffixChar(c: char) {
    IdentifierChar(c) || c == '.'
  }

  predicate SuffixText(s: string) {
    s != "" && forall i :: 0 <= i < |s| ==> SuffixChar(s[i])
  }

  function DigitRun(s: string): (n: nat)
    ensures n <= |s| && AllDigits(s[..n])
  {
    if s == "" || !IsDigit(s[0]) then 0
    else
      var n := DigitRun(s[1..]);
      assert s[..n + 1] == [s[0]] + s[1..][..n];
      n + 1
  }

  datatype Token = Token(value: nat, rest: string)

  function ReadNumber(s: string): Option<Token> {
    var n := DigitRun(s);
    if !Canonical(s[..n]) then None else Some(Token(Parse(s[..n]), s[n..]))
  }

  /** A number followed by a dot. */
  function ReadDotted(s: string): Option<Token> {
    var t := ReadNumber(s);
    if t.None? || t.value.rest == "" || t.value.rest[0] != '.' then None
    else Some(Token(t.value.value, t.value.rest[1..]))
  }

  function PlusIndex(s: string): (i: nat)
    ensures i <= |s| && (i < |s| ==> s[i] == '+') && forall j :: 0 <= j < i ==> s[j] != '+'
  {
    if s == "" || s[0] == '+' then 0 else PlusIndex(s[1..]) + 1
  }

  predicate BuildSuffix(s: string) {
    s == "" || (s[0] == '+' && SuffixText(s[1..]))
  }

  predicate WellFormedIdentifier(id: string) {
    id != "" && (AllDigits(id) && |id| > 1 ==> id[0] != '0')
  }

  /** The prerelease of what follows the patch number; the build part is checked and dropped. */
  function ReadPrerelease(s: string): Option<string> {
    var i := PlusIndex(s);
    var front := s[..i];
    if !BuildSuffix(s[i..]) then None
    else if front == "" then Some("")
    else if front[0] != '-' || !SuffixText(front[1..]) then None
    else if exists k :: 0 <= k < |Split(front[1..])| && !WellFormedIdentifier(Split(front[1..])[k]) then None
    else Some(front[1..])
  }

  function ParseVersion(s: string): Option<Version> {
    var major := ReadDotted(s);
    if major.None? then None
    else
      var minor := ReadDotted(major.value.rest);
      if minor.None? then None
      else
        var patch := ReadNumber(minor.value.rest);
        if patch.None? then None
        else
          var pre := ReadPrerelease(patch.value.rest);
          if pre.None? then None
          else Some(Version(major.value.value, minor.value.value, patch.value.value, pre.value))
  }

  function Suffix(v: Version): string {
    if v.prerelease == "" then "" else "-" + v.prerelease
  }

  function Show(v: Version): string {
    Print(v.major) + "." + Print(v.minor) + "." + Print(v.patch) + Suffix(v)
  }

  lemma {:induction false} SplitChars(s: string)
    ensures forall k, i :: 0 <= k < |Split(s)| && 0 <= i < |Split(s)[k]| ==>
              Split(s)[k][i] in s && Split(s)[k][i] != '.'
    ensures forall i :: 0 <= i < |s| ==> s[i] == '.' || exists k :: 0 <= k < |Split(s)| && s[i] in Split(s)[k]
  {
    if s != "" {
      var rest, parts := Split(s[1..]), Split(s);
      SplitChars(s[1..]);
      if s[0] == '.' {
        assert forall k :: 1 <= k < |parts| ==> parts[k] == rest[k - 1];
        assert forall k :: 0 <= k < |rest| ==> rest[k] == parts[k + 1];
      } else {
        assert parts[0] == [s[0]] + rest[0];
        assert forall k :: 1 <= k < |parts| ==> parts[k] == rest[k];
        assert s[0] == parts[0][0];
      }
      forall i | 0 <= i < |s| && s[i] != '.' ensures exists k :: 0 <= k < |parts| && s[i] in parts[k] {
        if i == 0 {
          assert s[0] in parts[0];
        } else {
          assert s[1..][i - 1] == s[i];
          var k :| 0 <= k < |rest| && s[i] in rest[k];
          assert s[i] in parts[if s[0] == '.' then k + 1 else k];
        }
      }
    }
  }

  /** What the parser accepts is valid, so the order above applies to it. */
  lemma ParsedIsValid(s: string)
    ensures ParseVersion(s).Some? ==> Valid(ParseVersion(s).value)
  {
    if ParseVersion(s).Some? && ParseVersion(s).value.prerelease != "" {
      var pre := ParseVersion(s).value.prerelease;
      SplitChars(pre);
      forall k | 0 <= k < |Split(pre)| ensures ValidIdentifier(Split(pre)[k]) {
        assert WellFormedIdentifier(Split(pre)[k]);
      }
    }
  }

  lemma {:induction false} NumeralRun(n: string, rest: string)
    requires AllDigits(n) && (rest == "" || !IsDigit(rest[0]))
    ensures DigitRun(n + rest) == |n|
  {
    if n == "" {
      assert n + rest == rest;
    } else {
      assert (n + rest)[1..] == n[1..] + rest;
      NumeralRun(n[1..], rest);
    }
  }

  lemma NumberIsRead(n: nat, rest: string)
    requires rest == "" || !IsDigit(rest[0])
    ensures ReadNumber(Print(n) + rest) == Some(Token(n, rest))
  {
    PrintThenParse(n);
    NumeralRun(Print(n), rest);
    assert (Print(n) + rest)[..|Print(n)|] == Print(n);
    assert (Print(n) + rest)[|Print(n)|..] == rest;
  }

  lemma DottedIsRead(n: nat, rest: string)
    ensures ReadDotted(Print(n) + ("." + rest)) == Some(Token(n, rest))
  {
    NumberIsRead(n, "." + rest);
    assert ("." + rest)[1..] == rest;
  }

  lemma {:induction false} PlusAfter(a: string, b: string)
    requires (forall i :: 0 <= i < |a| ==> a[i] != '+') && (b == "" || b[0] == '+')
    ensures PlusIndex(a + b) == |a|
  {
    if a == "" {
      assert a + b == b;
    } else {
      assert (a + b)[1..] == a[1..] + b;
      PlusAfter(a[1..], b);
    }
  }

  lemma ValidPrereleaseText(v: Version)
    requires Valid(v) && v.prerelease != ""
    ensures SuffixText(v.prerelease)
  {
    var pre := v.prerelease;
    SplitChars(pre);
    forall i | 0 <= i < |pre| ensures SuffixChar(pre[i]) {
      if pre[i] != '.' {
        var k :| 0 <= k < |Split(pre)| && pre[i] in Split(pre)[k];
        assert ValidIdentifier(Split(pre)[k]);
        var j :| 0 <= j < |Split(pre)[k]| && Split(pre)[k][j] == pre[i];
      }
    }
  }

  lemma PrereleaseIsRead(v: Version, build: string)
    requires Valid(v) && BuildSuffix(build)
    ensures ReadPrerelease(Suffix(v) + build) == Some(v.prerelease)
  {
    var front := Suffix(v);
    if v.prerelease != "" {
      ValidPrereleaseText(v);
      assert front[1..] == v.prerelease;
      forall k | 0 <= k < |Split(v.prerelease)| ensures WellFormedIdentifier(Split(v.prerelease)[k]) {
        assert ValidIdentifier(Split(v.prerelease)[k]);
      }
    }
    PlusAfter(front, build);
    assert (front + build)[..|front|] == front && (front + build)[|front|..] == build;
  }

  lemma Regroup(a: string, b: string, c: string, d: string, e: string)
    ensures (a + "." + b + "." + c + d) + e == a + ("." + (b + ("." + (c + (d + e)))))
  {
    var f := d + e;
    assert (a + "." + b + "." + c + d) + e == (a + "." + b + "." + c) + f;
    var g := c + f;
    assert (a + "." + b + "." + c) + f == (a + "." + b + ".") + g;
    var h := b + ("." + g);
    assert (a + "." + b + ".") + g == (a + ".") + h;
  }

  /** Printing and parsing a valid version gives it back, whatever build metadata follows. */
  lemma ShowThenParse(v: Version, build: string)
    requires Valid(v) && BuildSuffix(build)
    ensures ParseVersion(Show(v) + build) == Some(v)
  {
    var tail := Suffix(v) + build;
    var third := Print(v.patch) + tail;
    var second := Print(v.minor) + ("." + third);
    Regroup(Print(v.major), Print(v.minor), Print(v.patch), Suffix(v), build);
    DottedIsRead(v.major, second);
    DottedIsRead(v.minor, third);
    NumberIsRead(v.patch, tail);
    PrereleaseIsRead(v, build);
  }

  lemma NumberReads(s: string, t: Token)
    requires ReadNumber(s) == Some(t)
    ensures s == Print(t.value) + t.rest
  {
    var n := DigitRun(s);
    ParseThenPrint(s[..n]);
    assert s == s[..n] + s[n..];
  }

  lemma DottedReads(s: string, t: Token)
    requires ReadDotted(s) == Some(t)
    ensures s == Print(t.value) + ("." + t.rest)
  {
    var u := ReadNumber(s).value;
    NumberReads(s, u);
    assert u.rest == "." + t.rest;
  }

  lemma PrereleaseReads(s: string, pre: string) returns (build: string)
    requires ReadPrerelease(s) == Some(pre)
    ensures BuildSuffix(build) && s == (if pre == "" then "" else "-" + pre) + build
  {
    var i := PlusIndex(s);
    build := s[i..];
    assert s == s[..i] + s[i..];
    if s[..i] != "" {
      assert s[..i] == "-" + s[..i][1..];
    }
  }

  /** The parser accepts nothing else: what it accepts is a valid version as printed, and build metadata. */
  lemma ParseThenShow(s: string, v: Version) returns (build: string)
    requires ParseVersion(s) == Some(v)
    ensures Valid(v) && BuildSuffix(build) && s == Show(v) + build
  {
    ParsedIsValid(s);
    var major := ReadDotted(s).value;
    var minor := ReadDotted(major.rest).value;
    var patch := ReadNumber(minor.rest).value;
    DottedReads(s, major);
    DottedReads(major.rest, minor);
    NumberReads(minor.rest, patch);
    build := PrereleaseReads(patch.rest, v.prerelease);
    Regroup(Print(v.major), Print(v.minor), Print(v.patch), Suffix(v), build);
  }

  /** A range is met by all of its comparators together; the star, and the empty range, by every version. */
  lemma MatchesIff(v: Version, comparators: seq<Comparator>, c: Comparator)
    ensures Matches(AnyVersion, v) && Matches(AllOf([]), v)
    ensures Matches(AllOf(comparators + [c]), v) <==> Matches(AllOf(comparators), v) && Satisfies(v, c)
  {
    var all := comparators + [c];
    assert all[|comparators|] == c && forall i :: 0 <= i < |comparators| ==> all[i] == comparators[i];
  }

  /**
   Each comparator, in terms of section 11: a version satisfies it by precedence to the required
   one, or by being it.
   */
  lemma SatisfiesIff(v: Version, required: Version)
    requires Valid(v) && Valid(required)
    ensures Satisfies(v, Comparator(Equal, required)) <==> v == required
    ensures Satisfies(v, Comparator(LessOp, required)) <==> LowerPrecedence(v, required)
    ensures Satisfies(v, Comparator(GreaterOp, required)) <==> LowerPrecedence(required, v)
    ensures Satisfies(v, Comparator(AtMostOp, required)) <==> v == required || LowerPrecedence(v, required)
    ensures Satisfies(v, Comparator(AtLeastOp, required)) <==> v == required || LowerPrecedence(required, v)
    ensures Satisfies(v, Comparator(AtLeastOp, required)) <==> !LowerPrecedence(v, required)
  {
    LessIsPrecedence(v, required);
    LessIsPrecedence(required, v);
    StrictTotalOrder(v, required, v);
  }
}
