/** `versionArray(str)`: the strict `major.minor.patch` parser applied to the
    application version. */
module Version {
  import opened Wrappers
  import opened Strings

  type Triple = (nat, nat, nat)

  function InvalidVersion(s: string): string
  {
    "Invalid version string: " + s
  }

  predicate DigitGroup(g: string)
  {
    |g| > 0 && AllDigits(g)
  }

  /** `/^(\d+)\.(\d+)\.(\d+)$/` matches `s`: three non-empty runs of ASCII
      digits and two dots, nothing before, between or after. */
  ghost predicate VersionShape(s: string)
  {
    exists i, j :: 0 <= i < j < |s| && s[i] == '.' && s[j] == '.' &&
      DigitGroup(s[..i]) && DigitGroup(s[i + 1..j]) && DigitGroup(s[j + 1..])
  }

  /** The three groups as `BigInt`s, or the error thrown on any other
      string. */
  function ParseVersion(s: string): Result<Triple, string>
  {
    var parts := Split(s, '.');
    if |parts| == 3 && DigitGroup(parts[0]) && DigitGroup(parts[1]) && DigitGroup(parts[2]) then
      Success((DigitsValue(parts[0]), DigitsValue(parts[1]), DigitsValue(parts[2])))
    else
      Failure(InvalidVersion(s))
  }

  lemma NoDotInDigits(g: string)
    requires AllDigits(g)
    ensures '.' !in g
  {
  }

  /** Three dot-free groups joined by dots split back into the three. */
  lemma SplitThree(a: string, b: string, c: string)
    requires '.' !in a && '.' !in b && '.' !in c
    ensures Split(a + "." + b + "." + c, '.') == [a, b, c]
  {
    var tail := b + "." + c;
    assert a + "." + b + "." + c == a + ['.'] + tail;
    SplitPrefix(a, tail, '.');
    SplitPrefix(b, c, '.');
    SplitNoSeparator(c, '.');
  }

  /** A string is accepted exactly when it has the `\d+.\d+.\d+` shape, and
      then the components are the values of the three digit groups, so
      leading zeros are allowed. */
  lemma ParseVersionSpec(s: string)
    ensures ParseVersion(s).Success? <==> VersionShape(s)
    ensures ParseVersion(s).Failure? ==> ParseVersion(s).error == InvalidVersion(s)
    ensures forall i, j ::
      (0 <= i < j < |s| && s[i] == '.' && s[j] == '.' &&
       DigitGroup(s[..i]) && DigitGroup(s[i + 1..j]) && DigitGroup(s[j + 1..])) ==>
      ParseVersion(s) == Success((DigitsValue(s[..i]), DigitsValue(s[i + 1..j]), DigitsValue(s[j + 1..])))
  {
    forall i, j | 0 <= i < j < |s| && s[i] == '.' && s[j] == '.' &&
      DigitGroup(s[..i]) && DigitGroup(s[i + 1..j]) && DigitGroup(s[j + 1..])
      ensures ParseVersion(s) == Success((DigitsValue(s[..i]), DigitsValue(s[i + 1..j]), DigitsValue(s[j + 1..])))
    {
      ShapeSplits(s, i, j);
    }
    if ParseVersion(s).Success? {
      SuccessShape(s);
    }
  }

  /** An accepted string has the shape, cut at the ends of its first two
      groups. */
  lemma SuccessShape(s: string)
    requires ParseVersion(s).Success?
    ensures VersionShape(s)
  {
    var parts := Split(s, '.');
    JoinSplit(s, '.');
    var a, b, c := parts[0], parts[1], parts[2];
    assert s == a + "." + b + "." + c by {
      assert Join(parts, '.') == a + ['.'] + Join(parts[1..], '.');
      assert parts[1..] == [b, c];
      assert Join([b, c], '.') == b + ['.'] + Join([c], '.');
      assert [b, c][1..] == [c];
    }
    var i, j := |a|, |a| + 1 + |b|;
    assert s[..i] == a && s[i + 1..j] == b && s[j + 1..] == c;
    assert s[i] == '.' && s[j] == '.';
  }

  lemma ShapeSplits(s: string, i: nat, j: nat)
    requires 0 <= i < j < |s| && s[i] == '.' && s[j] == '.'
    requires DigitGroup(s[..i]) && DigitGroup(s[i + 1..j]) && DigitGroup(s[j + 1..])
    ensures Split(s, '.') == [s[..i], s[i + 1..j], s[j + 1..]]
  {
    var a, b, c := s[..i], s[i + 1..j], s[j + 1..];
    NoDotInDigits(a);
    NoDotInDigits(b);
    NoDotInDigits(c);
    assert s == a + "." + b + "." + c;
    SplitThree(a, b, c);
  }

  /** The version `a.b.c` printed in decimal parses back to `(a, b, c)`. */
  lemma PrintedVersion(a: nat, b: nat, c: nat)
    ensures ParseVersion(Decimal(a) + "." + Decimal(b) + "." + Decimal(c)) == Success((a, b, c))
  {
    DecimalValue(a);
    DecimalValue(b);
    DecimalValue(c);
    GroupsVersion(Decimal(a), Decimal(b), Decimal(c));
  }

  /** An extra part is rejected. */
  lemma RejectsFourParts()
    ensures ParseVersion("1.2.3.4").Failure?
  {
    SplitFour("1", "2", "3", "4");
    assert "1" + "." + "2" + "." + "3" + "." + "4" == "1.2.3.4";
  }

  lemma SplitFour(a: string, b: string, c: string, d: string)
    requires '.' !in a && '.' !in b && '.' !in c && '.' !in d
    ensures |Split(a + "." + b + "." + c + "." + d, '.')| == 4
  {
    var tail := b + "." + c + "." + d;
    assert a + "." + b + "." + c + "." + d == a + ['.'] + tail;
    SplitPrefix(a, tail, '.');
    SplitThree(b, c, d);
  }

  /** A missing part is rejected. */
  lemma RejectsTwoParts()
    ensures ParseVersion("1.2").Failure?
  {
    assert |Split("1.2", '.')| == 2 by {
      SplitPrefix("1", "2", '.');
      SplitNoSeparator("2", '.');
      assert "1" + ['.'] + "2" == "1.2";
    }
  }

  /** An empty group is rejected. */
  lemma RejectsEmptyGroup()
    ensures ParseVersion("1..3").Failure?
  {
    SplitThree("1", "", "3");
    assert "1" + "." + "" + "." + "3" == "1..3";
  }

  /** A leading zero is accepted and ignored. */
  lemma AcceptsLeadingZero()
    ensures ParseVersion("01.2.3") == Success((1, 2, 3))
  {
    GroupsVersion("01", "2", "3");
    assert "01" + "." + "2" + "." + "3" == "01.2.3";
    assert DigitsValue("01") == 1 && DigitsValue("2") == 2 && DigitsValue("3") == 3;
  }

  /** Three digit groups joined by dots parse to their values. */
  lemma GroupsVersion(a: string, b: string, c: string)
    requires DigitGroup(a) && DigitGroup(b) && DigitGroup(c)
    ensures ParseVersion(a + "." + b + "." + c) == Success((DigitsValue(a), DigitsValue(b), DigitsValue(c)))
  {
    NoDotInDigits(a);
    NoDotInDigits(b);
    NoDotInDigits(c);
    SplitThree(a, b, c);
  }
}
