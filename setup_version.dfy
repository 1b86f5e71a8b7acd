/**
 * `version2tuple` and `version2str` of setup.py: the package version
 * `YEAR.MONTH.DAY[.COMMIT]` read into the four integers of a Windows version
 * resource, and written back as four dot-separated decimals.
 *
 * Python's pieces are modelled explicitly: `str.split(".")`, `int()` on a
 * string (surrounding whitespace, a sign, digits with single underscores
 * between them) and `"%s" % n` on an integer.
 */
module SetupVersion {
  import opened Wrappers
  import opened Chars

  datatype VersionTuple = VersionTuple(year: int, month: int, day: int, commit: int)

  /** The two ValueErrors: `int()` refusing a component, and unpacking a list
      whose length is not 3 into three names. */
  datatype VersionError = InvalidLiteral(text: string) | UnpackMismatch(count: nat)

  // ---------------------------------------------------------------------------
  // str.split(".") and its inverse "." .join(...)

  function Split(s: string): (parts: seq<string>)
    ensures |parts| >= 1
    ensures forall i :: 0 <= i < |parts| ==> '.' !in parts[i]
  {
    if s == [] then [""]
    else
      var rest := Split(s[1..]);
      if s[0] == '.' then [""] + rest
      else [[s[0]] + rest[0]] + rest[1..]
  }

  function Join(parts: seq<string>): string
    requires |parts| >= 1
  {
    if |parts| == 1 then parts[0] else parts[0] + "." + Join(parts[1..])
  }

  predicate NoDots(parts: seq<string>)
  {
    forall i :: 0 <= i < |parts| ==> '.' !in parts[i]
  }

  /** Joining the pieces with dots gives back the split string. */
  lemma {:induction false} JoinSplit(s: string)
    ensures Join(Split(s)) == s
    decreases |s|
  {
    if s != [] {
      JoinSplit(s[1..]);
      var rest := Split(s[1..]);
      if s[0] == '.' {
        assert Split(s)[1..] == rest;
        assert s == [s[0]] + s[1..];
      } else {
        var parts := Split(s);
        if |rest| == 1 {
          assert s == [s[0]] + s[1..];
        } else {
          assert parts[1..] == rest[1..];
          assert s == [s[0]] + s[1..];
        }
      }
    }
  }

  lemma {:induction false} SplitNoDot(a: string)
    requires '.' !in a
    ensures Split(a) == [a]
    decreases |a|
  {
    if a != [] {
      assert '.' !in a[1..];
      SplitNoDot(a[1..]);
      assert [a[0]] + a[1..] == a;
    }
  }

  lemma {:induction false} SplitAtDot(a: string, b: string)
    requires '.' !in a
    ensures Split(a + "." + b) == [a] + Split(b)
    decreases |a|
  {
    var s := a + "." + b;
    if a == [] {
      assert s == "." + b;
      assert s[1..] == b;
    } else {
      assert s[0] == a[0];
      assert '.' !in a[1..];
      assert s[1..] == a[1..] + "." + b;
      SplitAtDot(a[1..], b);
      assert [a[0]] + a[1..] == a;
    }
  }

  /** Splitting dot-joined pieces that hold no dot gives the pieces back. */
  lemma {:induction false} SplitJoin(parts: seq<string>)
    requires |parts| >= 1 && NoDots(parts)
    ensures Split(Join(parts)) == parts
    decreases |parts|
  {
    if |parts| == 1 {
      SplitNoDot(parts[0]);
    } else {
      SplitJoin(parts[1..]);
      SplitAtDot(parts[0], Join(parts[1..]));
      assert [parts[0]] + parts[1..] == parts;
    }
  }

  // ---------------------------------------------------------------------------
  // int(text): the base-10 string conversion

  /** The characters `str.isspace` accepts, which `int()` strips from both ends. */
  predicate IsPySpace(c: char)
  {
    || c == ' ' || '\t' <= c <= '\r' || '\U{1C}' <= c <= '\U{1F}'
    || c == '\U{85}' || c == '\U{A0}' || c == '\U{1680}' || '\U{2000}' <= c <= '\U{200A}'
    || c == '\U{2028}' || c == '\U{2029}' || c == '\U{202F}' || c == '\U{205F}' || c == '\U{3000}'
  }

  function StripLeading(s: string): string
  {
    if s != [] && IsPySpace(s[0]) then StripLeading(s[1..]) else s
  }

  function StripTrailing(s: string): string
  {
    if s != [] && IsPySpace(s[|s| - 1]) then StripTrailing(s[..|s| - 1]) else s
  }

  function Strip(s: string): string
  {
    StripTrailing(StripLeading(s))
  }

  predicate AllDigits(d: string)
  {
    forall i :: 0 <= i < |d| ==> IsDigit(d[i])
  }

  /** `digit ("_"? digit)*`: the digits of a base-10 literal, underscores
      allowed singly between two digits. */
  predicate IsDigitGroups(b: string)
  {
    && b != []
    && IsDigit(b[0]) && IsDigit(b[|b| - 1])
    && (forall i :: 0 <= i < |b| ==> IsDigit(b[i]) || b[i] == '_')
    && (forall i :: 0 <= i < |b| - 1 ==> b[i] == '_' ==> b[i + 1] != '_')
  }

  function RemoveUnderscores(b: string): (d: string)
    requires forall i :: 0 <= i < |b| ==> IsDigit(b[i]) || b[i] == '_'
    ensures AllDigits(d)
  {
    if b == [] then []
    else if b[0] == '_' then RemoveUnderscores(b[1..])
    else [b[0]] + RemoveUnderscores(b[1..])
  }

  /** The value of a string of decimal digits, most significant first. */
  function DigitsValue(d: string): nat
    requires AllDigits(d)
  {
    if d == [] then 0
    else DigitsValue(d[..|d| - 1]) * 10 + (d[|d| - 1] as int - '0' as int)
  }

  function DecimalBody(b: string): Option<int>
  {
    if IsDigitGroups(b) then Some(DigitsValue(RemoveUnderscores(b))) else None
  }

  /** `int(s)`: None where Python raises ValueError. */
  function PyInt(s: string): Option<int>
  {
    var t := Strip(s);
    if t != [] && (t[0] == '+' || t[0] == '-') then
      match DecimalBody(t[1..])
      case None => None
      case Some(n) => Some(if t[0] == '-' then -n else n)
    else DecimalBody(t)
  }

  // ---------------------------------------------------------------------------
  // "%s" % n: the decimal rendering of an integer

  function NatToStr(n: nat): (s: string)
    ensures s != [] && AllDigits(s)
  {
    if n < 10 then [('0' as int + n) as char]
    else NatToStr(n / 10) + [('0' as int + n % 10) as char]
  }

  function IntToStr(n: int): string
  {
    if n < 0 then "-" + NatToStr(-n) else NatToStr(n)
  }

  lemma {:induction false} NatToStrValue(n: nat)
    ensures DigitsValue(NatToStr(n)) == n
  {
    var s := NatToStr(n);
    if n >= 10 {
      NatToStrValue(n / 10);
      assert s[..|s| - 1] == NatToStr(n / 10);
    }
  }

  lemma {:induction false} RemoveUnderscoresOfDigits(d: string)
    requires AllDigits(d)
    ensures RemoveUnderscores(d) == d
  {
    if d != [] {
      RemoveUnderscoresOfDigits(d[1..]);
      assert [d[0]] + d[1..] == d;
    }
  }

  /** `int()` reads back every integer `"%s"` writes. */
  lemma PyIntOfIntToStr(n: int)
    ensures PyInt(IntToStr(n)) == Some(n)
  {
    var m: nat := if n < 0 then -n else n;
    var d := NatToStr(m);
    var s := IntToStr(n);
    assert !IsPySpace(s[0]) && !IsPySpace(s[|s| - 1]);
    assert Strip(s) == s;
    RemoveUnderscoresOfDigits(d);
    NatToStrValue(m);
    assert DecimalBody(d) == Some(m);
    if n < 0 {
      assert s[1..] == d;
    }
  }

  /** `int()` on plain decimal digits is their value, leading zeros included. */
  lemma PyIntOfDigits(d: string)
    requires d != [] && AllDigits(d)
    ensures PyInt(d) == Some(DigitsValue(d))
  {
    assert !IsPySpace(d[0]) && !IsPySpace(d[|d| - 1]);
    assert Strip(d) == d;
    RemoveUnderscoresOfDigits(d);
  }

  lemma IntToStrNoDot(n: int)
    ensures '.' !in IntToStr(n)
  {
  }

  // ---------------------------------------------------------------------------
  // version2tuple and version2str

  /** `[int(value) for value in parts]`: the first component `int()` refuses
      raises. */
  function ParseAll(parts: seq<string>): Result<seq<int>, VersionError>
  {
    if parts == [] then Success([])
    else
      match ParseAll(parts[..|parts| - 1])
      case Failure(e) => Failure(e)
      case Success(ns) =>
        match PyInt(parts[|parts| - 1])
        case None => Failure(InvalidLiteral(parts[|parts| - 1]))
        case Some(n) => Success(ns + [n])
  }

  /** `version2tuple(commit)` for the package version `version`. */
  function ParseVersion(version: string, commit: int): Result<VersionTuple, VersionError>
  {
    var parts := Split(version);
    if |parts| > 3 then
      match PyInt(parts[3])
      case None => Failure(InvalidLiteral(parts[3]))
      case Some(c) => Unpack(parts[..3] + parts[4..], c)
    else Unpack(parts, commit)
  }

  /** The comprehension over the remaining components and the unpacking into
      year, month and day. */
  function Unpack(parts: seq<string>, commit: int): Result<VersionTuple, VersionError>
  {
    match ParseAll(parts)
    case Failure(e) => Failure(e)
    case Success(ns) =>
      if |ns| == 3 then Success(VersionTuple(ns[0], ns[1], ns[2], commit))
      else Failure(UnpackMismatch(|ns|))
  }

  /** A component `int()` refuses makes every longer list fail the same way. */
  lemma {:induction false} ParseAllFailureExtends(parts: seq<string>, k: nat)
    requires k <= |parts| && ParseAll(parts[..k]).Failure?
    ensures ParseAll(parts) == ParseAll(parts[..k])
    decreases |parts| - k
  {
    if k < |parts| {
      assert parts[..k + 1][..k] == parts[..k];
      ParseAllFailureExtends(parts, k + 1);
    } else {
      assert parts[..k] == parts;
    }
  }

  /** One more component: the comprehension either stops at an earlier error,
      refuses the new component, or appends its value. */
  lemma ParseAllStep(parts: seq<string>, i: nat)
    requires i < |parts|
    ensures ParseAll(parts[..i + 1]) ==
              if ParseAll(parts[..i]).Failure? then ParseAll(parts[..i])
              else if PyInt(parts[i]).None? then Failure(InvalidLiteral(parts[i]))
              else Success(ParseAll(parts[..i]).value + [PyInt(parts[i]).value])
  {
    assert parts[..i + 1][..i] == parts[..i];
  }

  /** `[int(value) for value in parts]`, one component after the other. */
  method ParseComponents(parts: seq<string>) returns (r: Result<seq<int>, VersionError>)
    ensures r == ParseAll(parts)
  {
    var values: seq<int> := [];
    var i := 0;
    while i < |parts|
      invariant 0 <= i <= |parts|
      invariant ParseAll(parts[..i]) == Success(values)
    {
      var value := PyInt(parts[i]);
      ParseAllStep(parts, i);
      if value.None? {
        ParseAllFailureExtends(parts, i + 1);
        return Failure(InvalidLiteral(parts[i]));
      }
      values := values + [value.value];
      i := i + 1;
    }
    assert parts[..i] == parts;
    r := Success(values);
  }

  /** `setup.py`'s `version2tuple`: split the version at dots, take and delete
      the fourth component when there are more than three, convert the rest
      one by one and unpack them into year, month and day. */
  method Version2Tuple(version: string, commit: int := 0) returns (r: Result<VersionTuple, VersionError>)
    ensures r == ParseVersion(version, commit)
  {
    var versionList := Split(version);
    var c := commit;
    if |versionList| > 3 {
      var fourth := PyInt(versionList[3]);
      if fourth.None? {
        return Failure(InvalidLiteral(versionList[3]));
      }
      c := fourth.value;
      versionList := versionList[..3] + versionList[4..];  // del version_list[3]
    }
    assert ParseVersion(version, commit) == Unpack(versionList, c);

    var values := ParseComponents(versionList);
    if values.Failure? {
      return Failure(values.error);
    }
    if |values.value| != 3 {
      return Failure(UnpackMismatch(|values.value|));
    }
    r := Success(VersionTuple(values.value[0], values.value[1], values.value[2], c));
  }

  /** `"%s.%s.%s.%s" % version_tuple` */
  function RenderTuple(t: VersionTuple): string
  {
    IntToStr(t.year) + "." + IntToStr(t.month) + "." + IntToStr(t.day) + "." + IntToStr(t.commit)
  }

  /** `setup.py`'s `version2str(commit)`. */
  function Version2Str(version: string, commit: int := 0): Result<string, VersionError>
  {
    match ParseVersion(version, commit)
    case Failure(e) => Failure(e)
    case Success(t) => Success(RenderTuple(t))
  }

  // ---------------------------------------------------------------------------
  // Lemmas

  predicate AllNumeric(parts: seq<string>)
  {
    forall i :: 0 <= i < |parts| ==> PyInt(parts[i]).Some?
  }

  /** The comprehension succeeds exactly when every component is an integer
      literal, and then yields their values in order. */
  lemma {:induction false} ParseAllSpec(parts: seq<string>)
    ensures ParseAll(parts).Success? <==> AllNumeric(parts)
    ensures ParseAll(parts).Success? ==>
              |ParseAll(parts).value| == |parts|
              && forall i :: 0 <= i < |parts| ==> PyInt(parts[i]) == Some(ParseAll(parts).value[i])
  {
    if parts != [] {
      var init := parts[..|parts| - 1];
      ParseAllSpec(init);
      if AllNumeric(parts) {
        assert AllNumeric(init) by {
          forall i | 0 <= i < |init| ensures PyInt(init[i]).Some? {
            assert init[i] == parts[i];
          }
        }
      }
      if ParseAll(parts).Success? {
        var ns := ParseAll(parts).value;
        forall i | 0 <= i < |parts| ensures PyInt(parts[i]) == Some(ns[i]) {
          if i < |parts| - 1 { assert parts[i] == init[i]; }
        }
      }
    }
  }

  /** The error names the first component `int()` refuses. */
  lemma ParseAllFirstBad(parts: seq<string>, k: nat)
    requires k < |parts| && PyInt(parts[k]).None?
    requires forall j :: 0 <= j < k ==> PyInt(parts[j]).Some?
    ensures ParseAll(parts) == Failure(InvalidLiteral(parts[k]))
  {
    var pre := parts[..k];
    ParseAllSpec(pre);
    assert AllNumeric(pre) by {
      forall j | 0 <= j < |pre| ensures PyInt(pre[j]).Some? { assert pre[j] == parts[j]; }
    }
    assert parts[..k + 1][..k] == pre;
    ParseAllFailureExtends(parts, k + 1);
  }

  /** A version is accepted exactly when it has three or four dot-separated
      components and `int()` takes each of them. */
  lemma VersionAccepted(version: string, commit: int)
    ensures ParseVersion(version, commit).Success? <==>
              (|Split(version)| == 3 || |Split(version)| == 4) && AllNumeric(Split(version))
  {
    var parts := Split(version);
    if |parts| > 3 {
      var rest := parts[..3] + parts[4..];
      ParseAllSpec(rest);
      if AllNumeric(parts) {
        assert AllNumeric(rest) by {
          forall i | 0 <= i < |rest| ensures PyInt(rest[i]).Some? {
            if i < 3 { assert rest[i] == parts[i]; } else { assert rest[i] == parts[i + 1]; }
          }
        }
      }
      if ParseVersion(version, commit).Success? {
        assert |parts| == 4;
        forall i | 0 <= i < 4 ensures PyInt(parts[i]).Some? {
          if i < 3 { assert rest[i] == parts[i]; }
        }
      }
    } else {
      ParseAllSpec(parts);
    }
  }

  /** The tuple of an accepted version: year, month and day are the values of
      the first three components; the commit is the fourth component's value
      when there is one, and the `commit` argument otherwise. */
  lemma VersionFields(version: string, commit: int)
    requires ParseVersion(version, commit).Success?
    ensures var parts := Split(version);
            var t := ParseVersion(version, commit).value;
            && (|parts| == 3 || |parts| == 4)
            && PyInt(parts[0]) == Some(t.year)
            && PyInt(parts[1]) == Some(t.month)
            && PyInt(parts[2]) == Some(t.day)
            && (if |parts| == 4 then PyInt(parts[3]) == Some(t.commit) else t.commit == commit)
  {
    var parts := Split(version);
    VersionAccepted(version, commit);
    if |parts| == 4 {
      var rest := parts[..3] + parts[4..];
      ParseAllSpec(rest);
      assert rest[0] == parts[0] && rest[1] == parts[1] && rest[2] == parts[2];
    } else {
      ParseAllSpec(parts);
    }
  }

  /** With every component numeric, a wrong count fails at the unpacking:
      fewer than three components, or more than four (after the fourth is
      removed, at least four remain). */
  lemma VersionWrongCount(version: string, commit: int)
    requires AllNumeric(Split(version))
    ensures var n := |Split(version)|;
            && (n < 3 ==> ParseVersion(version, commit) == Failure(UnpackMismatch(n)))
            && (n > 4 ==> ParseVersion(version, commit) == Failure(UnpackMismatch(n - 1)))
  {
    var parts := Split(version);
    if |parts| > 4 {
      var rest := parts[..3] + parts[4..];
      assert AllNumeric(rest) by {
        forall i | 0 <= i < |rest| ensures PyInt(rest[i]).Some? {
          if i < 3 { assert rest[i] == parts[i]; } else { assert rest[i] == parts[i + 1]; }
        }
      }
      ParseAllSpec(rest);
    } else if |parts| < 3 {
      ParseAllSpec(parts);
    }
  }

  /** The rendering is the four decimals joined with dots. */
  lemma RenderIsJoin(t: VersionTuple)
    ensures RenderTuple(t) == Join([IntToStr(t.year), IntToStr(t.month), IntToStr(t.day), IntToStr(t.commit)])
    ensures NoDots([IntToStr(t.year), IntToStr(t.month), IntToStr(t.day), IntToStr(t.commit)])
  {
    var parts := [IntToStr(t.year), IntToStr(t.month), IntToStr(t.day), IntToStr(t.commit)];
    assert Join(parts[3..]) == IntToStr(t.commit);
    assert Join(parts[2..]) == IntToStr(t.day) + "." + IntToStr(t.commit);
    assert Join(parts[1..]) == IntToStr(t.month) + "." + (IntToStr(t.day) + "." + IntToStr(t.commit));
    IntToStrNoDot(t.year);
    IntToStrNoDot(t.month);
    IntToStrNoDot(t.day);
    IntToStrNoDot(t.commit);
  }

  /** Rendering a tuple and reading it back gives the same tuple, whatever
      default commit is passed. */
  lemma ParseRender(t: VersionTuple, commit: int)
    ensures ParseVersion(RenderTuple(t), commit) == Success(t)
  {
    var parts := [IntToStr(t.year), IntToStr(t.month), IntToStr(t.day), IntToStr(t.commit)];
    RenderIsJoin(t);
    SplitJoin(parts);
    PyIntOfIntToStr(t.year);
    PyIntOfIntToStr(t.month);
    PyIntOfIntToStr(t.day);
    PyIntOfIntToStr(t.commit);
    var rest := parts[..3] + parts[4..];
    assert rest == [IntToStr(t.year), IntToStr(t.month), IntToStr(t.day)];
    ParseAllSpec(rest);
    assert AllNumeric(rest);
    var ns := ParseAll(rest).value;
    assert ns == [t.year, t.month, t.day];
  }

  /** A version written in canonical decimals with four components comes back
      unchanged from `version2str`. */
  lemma Version2StrRoundTrip(t: VersionTuple, commit: int)
    ensures Version2Str(RenderTuple(t), commit) == Success(RenderTuple(t))
  {
    ParseRender(t, commit);
  }

  /** `version2str` normalises: what it writes is a four-component version that
      it maps to itself, and it denotes the same tuple. */
  lemma Version2StrNormalises(version: string, commit: int, commit': int)
    requires Version2Str(version, commit).Success?
    ensures var s := Version2Str(version, commit).value;
            && |Split(s)| == 4
            && ParseVersion(s, commit') == ParseVersion(version, commit)
            && Version2Str(s, commit') == Success(s)
  {
    var t := ParseVersion(version, commit).value;
    ParseRender(t, commit');
    VersionAccepted(RenderTuple(t), commit');
    var parts := [IntToStr(t.year), IntToStr(t.month), IntToStr(t.day), IntToStr(t.commit)];
    RenderIsJoin(t);
    SplitJoin(parts);
  }

  /** A leading zero does not change a digit string's value. */
  lemma {:induction false} DigitsValueLeadingZero(d: string)
    requires AllDigits(d)
    ensures AllDigits("0" + d) && DigitsValue("0" + d) == DigitsValue(d)
    decreases |d|
  {
    var z := "0" + d;
    assert AllDigits(z) by {
      forall i | 0 <= i < |z| ensures IsDigit(z[i]) {
        if i > 0 { assert z[i] == d[i - 1]; }
      }
    }
    if d != [] {
      var init := d[..|d| - 1];
      assert z[..|z| - 1] == "0" + init;
      assert z[|z| - 1] == d[|d| - 1];
      DigitsValueLeadingZero(init);
    }
  }

  /** `int()` ignores leading zeros in a version component: `06` reads as 6. */
  lemma PyIntLeadingZero(d: string)
    requires d != [] && AllDigits(d)
    ensures PyInt("0" + d) == PyInt(d) == Some(DigitsValue(d))
  {
    DigitsValueLeadingZero(d);
    PyIntOfDigits(d);
    PyIntOfDigits("0" + d);
  }

  /** The fourth component is converted first (it is taken and deleted before
      the others are read), so a bad commit component is the error even when
      year, month or day are bad too: `x.1.1.y` reports `y`. */
  lemma VersionBadCommit(version: string, commit: int)
    requires |Split(version)| > 3 && PyInt(Split(version)[3]).None?
    ensures ParseVersion(version, commit) == Failure(InvalidLiteral(Split(version)[3]))
  {
  }

  /** Once the commit component (if any) is accepted, the error names the first
      of the remaining components that `int()` refuses, whatever their count. */
  lemma VersionFirstBad(version: string, commit: int, k: nat)
    requires var parts := Split(version);
             |parts| > 3 ==> PyInt(parts[3]).Some?
    requires var parts := Split(version);
             var rest := if |parts| > 3 then parts[..3] + parts[4..] else parts;
             && k < |rest| && PyInt(rest[k]).None?
             && forall j :: 0 <= j < k ==> PyInt(rest[j]).Some?
    ensures var parts := Split(version);
            var rest := if |parts| > 3 then parts[..3] + parts[4..] else parts;
            ParseVersion(version, commit) == Failure(InvalidLiteral(rest[k]))
  {
    var parts := Split(version);
    var rest := if |parts| > 3 then parts[..3] + parts[4..] else parts;
    ParseAllFirstBad(rest, k);
  }

  /** A date version whose month and day carry a leading zero is read as the
      plain numbers and written back without the zeros, with the commit added. */
  lemma PaddedDateVersion(y: nat, m: nat, d: nat, commit: int)
    ensures Version2Str(IntToStr(y) + "." + ("0" + IntToStr(m)) + "." + ("0" + IntToStr(d)), commit)
              == Success(RenderTuple(VersionTuple(y, m, d, commit)))
  {
    var parts := [IntToStr(y), "0" + IntToStr(m), "0" + IntToStr(d)];
    IntToStrNoDot(y);
    IntToStrNoDot(m);
    IntToStrNoDot(d);
    assert NoDots(parts);
    assert Join(parts) == IntToStr(y) + "." + ("0" + IntToStr(m)) + "." + ("0" + IntToStr(d)) by {
      assert Join(parts[2..]) == parts[2];
      assert Join(parts[1..]) == parts[1] + "." + parts[2];
    }
    SplitJoin(parts);
    PyIntOfIntToStr(y);
    PyIntOfIntToStr(m);
    PyIntOfIntToStr(d);
    PyIntLeadingZero(NatToStr(m));
    PyIntLeadingZero(NatToStr(d));
    ParseAllSpec(parts);
    assert ParseAll(parts).value == [y, m, d];
  }

  /** The zero-padded date `2020.06.01` with the default commit becomes `2020.6.1.0`. */
  lemma Version2StrDateExample()
    ensures Version2Str("2020.06.01", 0) == Success("2020.6.1.0")
  {
    assert IntToStr(2020) == "2020" by {
      assert NatToStr(2) == "2";
      assert NatToStr(20) == "20";
      assert NatToStr(202) == "202";
    }
    assert IntToStr(6) == "6" && IntToStr(1) == "1" && IntToStr(0) == "0";
    assert "2020" + "." + ("0" + "6") + "." + ("0" + "1") == "2020.06.01";
    assert "2020" + "." + "6" + "." + "1" + "." + "0" == "2020.6.1.0";
    PaddedDateVersion(2020, 6, 1, 0);
  }
}
