/** Text normalisation applied to every OCR line and every blacklist name
    before they are compared. */
module Text {

  /** The in-game rank prefix that is stripped (case-sensitive, at most once). */
  const GeneralPrefix: string := "General "

  predicate IsUpper(c: char) {
    'A' <= c <= 'Z'
  }

  /** ASCII lower-casing of one character; every other character is unchanged. */
  function Lower(c: char): (d: char)
    ensures !IsUpper(d)
    ensures IsUpper(c) ==> 'a' <= d <= 'z' && d as int - 'a' as int == c as int - 'A' as int
    ensures !IsUpper(c) ==> d == c
    ensures d == ' ' <==> c == ' '
  {
    if IsUpper(c) then (c as int - 'A' as int + 'a' as int) as char else c
  }

  predicate NoUpper(s: string) {
    forall i :: 0 <= i < |s| ==> !IsUpper(s[i])
  }

  predicate StartsWith(s: string, prefix: string) {
    |prefix| <= |s| && s[..|prefix|] == prefix
  }

  /** The number of bytes of `c` in UTF-8. */
  function Utf8Width(c: char): (n: nat)
    ensures 1 <= n <= 4
    ensures n == 1 <==> c as int < 0x80
  {
    if c as int < 0x80 then 1
    else if c as int < 0x800 then 2
    else if c as int < 0x1_0000 then 3
    else 4
  }

  /** `len()` of a Rust string: its length in UTF-8 bytes. */
  function Utf8Len(s: string): (n: nat)
    ensures |s| <= n <= 4 * |s|
  {
    if s == [] then 0 else Utf8Width(s[0]) + Utf8Len(s[1..])
  }

  /** A text is at most one byte long exactly when it is empty or a single
      ASCII character; any other character alone already takes two bytes. */
  lemma Utf8LenAtMostOne(s: string)
    ensures Utf8Len(s) <= 1 <==> s == [] || (|s| == 1 && s[0] as int < 0x80)
  {
    if |s| == 1 {
      assert s[1..] == [];
    }
  }

  /** `to_lowercase`: the character-wise lower-casing of `s`. */
  function Lowercase(s: string): string {
    seq(|s|, i requires 0 <= i < |s| => Lower(s[i]))
  }

  /** `replace(" ", "")`: `s` with every space deleted and the rest kept in order. */
  function RemoveSpaces(s: string): (r: string)
    ensures ' ' !in r
    ensures |r| <= |s|
  {
    if s == [] then []
    else if s[0] == ' ' then RemoveSpaces(s[1..])
    else [s[0]] + RemoveSpaces(s[1..])
  }

  /** Deleting spaces keeps every other character of `s` and adds none. */
  lemma {:induction false} RemoveSpacesKeeps(s: string)
    ensures forall c :: c in RemoveSpaces(s) <==> c in s && c != ' '
  {
    if s != [] {
      RemoveSpacesKeeps(s[1..]);
      assert s == [s[0]] + s[1..];
    }
  }

  /** Drops one leading "General " if present. */
  function StripGeneral(s: string): (r: string)
    ensures StartsWith(s, GeneralPrefix) ==> s == GeneralPrefix + r
    ensures !StartsWith(s, GeneralPrefix) ==> r == s
  {
    if StartsWith(s, GeneralPrefix) then s[|GeneralPrefix|..] else s
  }

  /** The comparison key of a name: prefix stripped, lower-cased, spaces removed. */
  function Normalize(s: string): (r: string)
    ensures ' ' !in r
    ensures NoUpper(r)
    ensures |r| <= |s|
  {
    var lowered := Lowercase(StripGeneral(s));
    RemoveSpacesKeeps(lowered);
    assert forall c :: c in lowered ==> !IsUpper(c);
    RemoveSpaces(lowered)
  }

  lemma {:induction false} RemoveSpacesUnchanged(s: string)
    ensures RemoveSpaces(s) == s <==> ' ' !in s
  {
    if s != [] {
      RemoveSpacesUnchanged(s[1..]);
      if s[0] == ' ' {
        assert |RemoveSpaces(s)| < |s|;
      }
    }
  }

  lemma {:induction false} RemoveSpacesAppend(a: string, b: string)
    ensures RemoveSpaces(a + b) == RemoveSpaces(a) + RemoveSpaces(b)
  {
    if a != [] {
      assert (a + b)[1..] == a[1..] + b;
      RemoveSpacesAppend(a[1..], b);
    } else {
      assert a + b == b;
    }
  }

  lemma LowercaseUnchanged(s: string)
    requires NoUpper(s)
    ensures Lowercase(s) == s
  {
  }

  /** Normalising twice is normalising once: a key has no space and no capital
      letter, so in particular it cannot start with "General ". */
  lemma NormalizeIdempotent(s: string)
    ensures Normalize(Normalize(s)) == Normalize(s)
  {
    var r := Normalize(s);
    if |GeneralPrefix| <= |r| {
      assert !IsUpper(r[0]);
      assert r[..|GeneralPrefix|][0] == r[0];
    }
    assert !StartsWith(r, GeneralPrefix);
    LowercaseUnchanged(r);
    RemoveSpacesUnchanged(r);
  }

  /** A leading "General " is stripped and the rest is normalised in full;
      text without the exact prefix is only lower-cased and de-spaced. */
  lemma NormalizePrefixRule(s: string)
    ensures Normalize(GeneralPrefix + s) == RemoveSpaces(Lowercase(s))
    ensures !StartsWith(s, GeneralPrefix) ==> Normalize(s) == RemoveSpaces(Lowercase(s))
  {
    assert StartsWith(GeneralPrefix + s, GeneralPrefix);
    assert (GeneralPrefix + s)[|GeneralPrefix|..] == s;
  }

  /** The prefix rule on concrete names: exact, case-sensitive and applied once. */
  lemma NormalizeExampleStripped()
    ensures Normalize("General Smith") == "smith"
  {
    calc {
      Normalize("General Smith");
    == { assert "General Smith" == GeneralPrefix + "Smith"; NormalizePrefixRule("Smith"); }
      RemoveSpaces(Lowercase("Smith"));
    == { LowercaseSmith(); }
      RemoveSpaces("smith");
    == { RemoveSpacesUnchanged("smith"); }
      "smith";
    }
  }

  lemma LowercaseSmith()
    ensures Lowercase("Smith") == "smith"
  {
    var t := Lowercase("Smith");
    assert t[0] == Lower('S') == 's';
    forall i | 1 <= i < |t| ensures t[i] == "smith"[i] {
      assert !IsUpper("Smith"[i]);
    }
  }

  /** Outside the case-sensitive prefix, normalising ignores case. */
  lemma NormalizeIgnoresCase(s: string)
    requires !StartsWith(s, GeneralPrefix)
    ensures Normalize(s) == Normalize(Lowercase(s))
  {
    var lowered := Lowercase(s);
    LowercaseUnchanged(lowered);
  }

  /** Two texts that differ only in the case of ASCII letters, neither
      starting with the exact prefix, give the same key. */
  lemma NormalizeCaseBlind(a: string, b: string)
    requires !StartsWith(a, GeneralPrefix) && !StartsWith(b, GeneralPrefix)
    requires Lowercase(a) == Lowercase(b)
    ensures Normalize(a) == Normalize(b)
  {
    NormalizeIgnoresCase(a);
    NormalizeIgnoresCase(b);
  }

  /** Text that does not start with a capital cannot start with "General ". */
  lemma NotPrefixed(s: string)
    requires |s| > 0 && !IsUpper(s[0])
    ensures !StartsWith(s, GeneralPrefix)
  {
    if |GeneralPrefix| <= |s| {
      assert s[..|GeneralPrefix|][0] == s[0];
    }
  }

  /** Lower-case words separated by one space normalise to the words joined. */
  lemma NormalizeJoinsWords(a: string, b: string)
    requires NoUpper(a) && NoUpper(b) && ' ' !in a && ' ' !in b
    ensures Normalize(a + " " + b) == a + b
  {
    var joined := a + " " + b;
    assert joined[0] == if a == [] then ' ' else a[0];
    NotPrefixed(joined);
    LowercaseUnchanged(a + " " + b);
    RemoveSpacesAppend(a + " ", b);
    RemoveSpacesAppend(a, " ");
    RemoveSpacesUnchanged(a);
    RemoveSpacesUnchanged(b);
  }

  lemma NormalizeExampleLowerPrefix()
    ensures Normalize("general smith") == "generalsmith"
  {
    calc {
      Normalize("general smith");
    == { assert "general smith" == "general" + " " + "smith";
         NormalizeJoinsWords("general", "smith"); }
      "general" + "smith";
    }
  }

  lemma NormalizeExampleOnce()
    ensures Normalize("General General X") == "generalx"
  {
    calc {
      Normalize("General General X");
    == { assert "General General X" == GeneralPrefix + "General X"; NormalizePrefixRule("General X"); }
      RemoveSpaces(Lowercase("General X"));
    == { LowercaseGeneralX(); }
      RemoveSpaces("general" + " " + "x");
    == { RemoveSpacesAppend("general" + " ", "x");
         RemoveSpacesAppend("general", " ");
         RemoveSpacesUnchanged("general");
         RemoveSpacesUnchanged("x"); }
      "general" + "x";
    }
  }

  lemma LowercaseGeneralX()
    ensures Lowercase("General X") == "general" + " " + "x"
  {
    var t := Lowercase("General X");
    assert t[0] == Lower('G') == 'g';
    assert t[8] == Lower('X') == 'x';
    forall i | 0 < i < 8 ensures t[i] == "general x"[i] {
      assert !IsUpper("General X"[i]);
    }
  }

  lemma LowercaseBadActor()
    ensures Lowercase("Bad Actor") == "bad" + " " + "actor"
  {
    var s, t := "Bad Actor", Lowercase("Bad Actor");
    assert t[0] == Lower('B') == 'b';
    assert t[4] == Lower('A') == 'a';
    forall i | 0 <= i < |s| && i != 0 && i != 4 ensures t[i] == "bad actor"[i] {
      assert !IsUpper(s[i]);
    }
  }

  /** Prefix, case and spaces all vanish: both spellings give the same key. */
  lemma NormalizeExampleBadActor()
    ensures Normalize("Bad Actor") == "badactor"
  {
    calc {
      Normalize("Bad Actor");
    == { assert "Bad Actor"[0] != GeneralPrefix[0]; NormalizeIgnoresCase("Bad Actor"); }
      Normalize(Lowercase("Bad Actor"));
    == { LowercaseBadActor(); }
      Normalize("bad" + " " + "actor");
    == { NormalizeJoinsWords("bad", "actor"); }
      "bad" + "actor";
    }
  }

  lemma NormalizeExampleGeneralBadActor()
    ensures Normalize("General Bad Actor") == "badactor"
  {
    calc {
      Normalize("General Bad Actor");
    == { PrefixGeneralBadActor(); }
      Normalize(GeneralPrefix + "Bad Actor");
    == { NormalizePrefixRule("Bad Actor");
         assert "Bad Actor"[0] != GeneralPrefix[0]; }
      Normalize("Bad Actor");
    == { NormalizeExampleBadActor(); }
      "badactor";
    }
  }

  lemma PrefixGeneralBadActor()
    ensures GeneralPrefix + "Bad Actor" == "General Bad Actor"
  {
    var g := GeneralPrefix + "Bad Actor";
    forall i | 0 <= i < |g| ensures g[i] == "General Bad Actor"[i] {
    }
  }
}
