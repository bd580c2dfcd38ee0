/** Password strength: the characters of a password fall into five classes,
    and the number of classes present, the length and the smallest class
    count pick one of five tiers. */
module PasswordStrength {
  import opened Bits

  const VeryWeak: int := 1
  const Weak: int := 2
  const Acceptable: int := 3
  const Strong: int := 4
  const VeryStrong: int := 5

  /** The character classes, in the order they are examined. */
  datatype CharClass = Lower | Upper | Digit | Joiner | Special

  const ClassOrder: seq<CharClass> := [Lower, Upper, Digit, Joiner, Special]

  /** The class of one byte: a-z, A-Z, 0-9, one of "-", "_" and " ", or
      anything else. */
  function ClassOf(b: Byte): CharClass
  {
    if 'a' as int <= b <= 'z' as int then Lower
    else if 'A' as int <= b <= 'Z' as int then Upper
    else if '0' as int <= b <= '9' as int then Digit
    else if b == '-' as int || b == '_' as int || b == ' ' as int then Joiner
    else Special
  }

  /** What is left of the password once every byte outside class k is
      removed. */
  function Kept(pw: seq<Byte>, k: CharClass): (r: seq<Byte>)
    ensures |r| <= |pw|
    ensures forall i :: 0 <= i < |r| ==> ClassOf(r[i]) == k
    ensures (exists i :: 0 <= i < |pw| && ClassOf(pw[i]) == k) <==> |r| > 0
  {
    if pw == [] then []
    else
      var rest := Kept(pw[1..], k);
      assert forall i :: 1 <= i < |pw| ==> pw[i] == pw[1..][i - 1];
      assert (exists i :: 0 <= i < |pw[1..]| && ClassOf(pw[1..][i]) == k)
          ==> (exists i :: 0 <= i < |pw| && ClassOf(pw[i]) == k);
      if ClassOf(pw[0]) == k then [pw[0]] + rest else rest
  }

  /** The number of bytes of class k in the password. */
  function Count(pw: seq<Byte>, k: CharClass): nat
  {
    |Kept(pw, k)|
  }

  /** The classes present, each with its count, in examination order. */
  type Found = seq<(CharClass, nat)>

  function FoundAmong(pw: seq<Byte>, ks: seq<CharClass>): (f: Found)
    ensures |f| <= |ks|
    ensures forall i :: 0 <= i < |f| ==> f[i].1 > 0 && f[i].1 == Count(pw, f[i].0) && f[i].0 in ks
  {
    if ks == [] then []
    else
      var front, k := ks[..|ks| - 1], ks[|ks| - 1];
      FoundAmong(pw, front) + if Count(pw, k) > 0 then [(k, Count(pw, k))] else []
  }

  /** The $character_classes_found array of checkStrength. */
  function FoundClasses(pw: seq<Byte>): Found
  {
    FoundAmong(pw, ClassOrder)
  }

  /** Every class found holds at least `minimum` bytes. */
  predicate AllAtLeast(found: Found, minimum: int)
  {
    forall i :: 0 <= i < |found| ==> found[i].1 >= minimum
  }

  /** The strength table: the highest tier whose conditions hold, for the
      number of classes present. */
  function Strength(pw: seq<Byte>): int
  {
    var n, found := |pw|, FoundClasses(pw);
    var classes := |found|;
    if classes == 1 then
      if n >= 20 then Weak else VeryWeak
    else if classes == 2 then
      if n >= 22 && AllAtLeast(found, 7) then Acceptable
      else if n >= 12 then Weak
      else VeryWeak
    else if classes == 3 then
      if n >= 22 && AllAtLeast(found, 5) then Strong
      else if n >= 10 && AllAtLeast(found, 2) then Acceptable
      else if n >= 8 then Weak
      else VeryWeak
    else if classes >= 4 then
      if n >= 22 && AllAtLeast(found, 3) then VeryStrong
      else if n >= 15 && AllAtLeast(found, 2) then Strong
      else if n >= 10 then Acceptable
      else if n >= 8 then Weak
      else VeryWeak
    else VeryWeak
  }

  // ---------------------------------------------------------------------------
  // The operations

  /** minimumCharactersInClass: false at the first class below the minimum. */
  method MinimumCharactersInClass(found: Found, minimum: int) returns (r: bool)
    ensures r <==> AllAtLeast(found, minimum)
  {
    var i := 0;
    while i < |found|
      invariant 0 <= i <= |found|
      invariant AllAtLeast(found[..i], minimum)
    {
      if found[i].1 < minimum {
        return false;
      }
      i := i + 1;
    }
    assert found[..i] == found;
    return true;
  }

  /** The class counts of checkStrength: one pass per class, keeping the
      classes with at least one byte. */
  method CountClasses(password: seq<Byte>) returns (found: Found)
    ensures found == FoundClasses(password)
  {
    found := [];
    var i := 0;
    while i < |ClassOrder|
      invariant 0 <= i <= |ClassOrder|
      invariant found == FoundAmong(password, ClassOrder[..i])
    {
      var k := ClassOrder[i];
      var count := |Kept(password, k)|;
      if count > 0 {
        found := found + [(k, count)];
      }
      assert ClassOrder[..i + 1][..i] == ClassOrder[..i];
      i := i + 1;
    }
    assert ClassOrder[..i] == ClassOrder;
  }

  /** checkStrength: the tier starts very weak and each rule that applies
      raises it, later rules overriding earlier ones. */
  method CheckStrength(password: seq<Byte>) returns (strength: int)
    ensures strength == Strength(password)
  {
    strength := VeryWeak;
    var length := |password|;
    var found := CountClasses(password);
    if |found| == 1 {
      if length >= 20 {
        strength := Weak;
      }
    } else if |found| == 2 {
      if length >= 12 {
        strength := Weak;
      }
      if length >= 22 {
        var enough := MinimumCharactersInClass(found, 7);
        if enough {
          strength := Acceptable;
        }
      }
    } else if |found| == 3 {
      if length >= 8 {
        strength := Weak;
      }
      if length >= 10 {
        var enough := MinimumCharactersInClass(found, 2);
        if enough {
          strength := Acceptable;
        }
      }
      if length >= 22 {
        var enough := MinimumCharactersInClass(found, 5);
        if enough {
          strength := Strong;
        }
      }
    } else if |found| >= 4 {
      if length >= 8 {
        strength := Weak;
      }
      if length >= 10 {
        strength := Acceptable;
      }
      if length >= 15 {
        var enough := MinimumCharactersInClass(found, 2);
        if enough {
          strength := Strong;
        }
      }
      if length >= 22 {
        var enough := MinimumCharactersInClass(found, 3);
        if enough {
          strength := VeryStrong;
        }
      }
    }
  }

  // ---------------------------------------------------------------------------
  // Properties

  /** The sum of the counts of a list of found classes. */
  function Total(found: Found): nat
  {
    if found == [] then 0 else Total(found[..|found| - 1]) + found[|found| - 1].1
  }

  lemma {:induction false} TotalAppend(a: Found, b: Found)
    ensures Total(a + b) == Total(a) + Total(b)
    decreases |b|
  {
    if b == [] {
      assert a + b == a;
    } else {
      assert (a + b)[..|a + b| - 1] == a + b[..|b| - 1];
      TotalAppend(a, b[..|b| - 1]);
    }
  }

  /** Each byte falls in exactly one class, so the class counts add up to
      the length. */
  lemma {:induction false} CountsAddUp(pw: seq<Byte>)
    ensures Count(pw, Lower) + Count(pw, Upper) + Count(pw, Digit) + Count(pw, Joiner) + Count(pw, Special) == |pw|
  {
    if pw != [] {
      CountsAddUp(pw[1..]);
    }
  }

  /** The sum of the counts of a list of classes. */
  function SumCounts(pw: seq<Byte>, ks: seq<CharClass>): nat
  {
    if ks == [] then 0 else SumCounts(pw, ks[..|ks| - 1]) + Count(pw, ks[|ks| - 1])
  }

  /** Leaving out the empty classes does not change the total. */
  lemma {:induction false} FoundTotal(pw: seq<Byte>, ks: seq<CharClass>)
    ensures Total(FoundAmong(pw, ks)) == SumCounts(pw, ks)
    decreases |ks|
  {
    if ks != [] {
      var front, k := ks[..|ks| - 1], ks[|ks| - 1];
      FoundTotal(pw, front);
      var last: Found := if Count(pw, k) > 0 then [(k, Count(pw, k))] else [];
      TotalAppend(FoundAmong(pw, front), last);
      assert Total(last) == Count(pw, k) by {
        if last != [] {
          assert last[..0] == [];
        }
      }
    }
  }

  lemma SumCountsSnoc(pw: seq<Byte>, ks: seq<CharClass>, k: CharClass)
    ensures SumCounts(pw, ks + [k]) == SumCounts(pw, ks) + Count(pw, k)
  {
    assert (ks + [k])[..|ks|] == ks;
  }

  /** The counts of the classes found add up to the password length. */
  lemma CountsPartition(pw: seq<Byte>)
    ensures Total(FoundClasses(pw)) == |pw|
  {
    assert SumCounts(pw, ClassOrder)
        == Count(pw, Lower) + Count(pw, Upper) + Count(pw, Digit) + Count(pw, Joiner) + Count(pw, Special) by {
      var s1: seq<CharClass> := [Lower];
      var s2 := s1 + [Upper];
      var s3 := s2 + [Digit];
      var s4 := s3 + [Joiner];
      SumCountsSnoc(pw, [], Lower);
      assert [] + [Lower] == s1;
      SumCountsSnoc(pw, s1, Upper);
      SumCountsSnoc(pw, s2, Digit);
      SumCountsSnoc(pw, s3, Joiner);
      SumCountsSnoc(pw, s4, Special);
      assert s4 + [Special] == ClassOrder;
    }
    CountsAddUp(pw);
    FoundTotal(pw, ClassOrder);
  }

  /** A class is among those found from a list exactly when it is in the
      list and has a byte. */
  lemma {:induction false} FoundAmongHas(pw: seq<Byte>, ks: seq<CharClass>, k: CharClass)
    ensures (exists i :: 0 <= i < |FoundAmong(pw, ks)| && FoundAmong(pw, ks)[i].0 == k)
        <==> k in ks && Count(pw, k) > 0
    decreases |ks|
  {
    if ks != [] {
      var front, last := ks[..|ks| - 1], ks[|ks| - 1];
      FoundAmongHas(pw, front, k);
      assert ks == front + [last];
      var f, g := FoundAmong(pw, front), FoundAmong(pw, ks);
      assert forall i :: 0 <= i < |f| ==> g[i] == f[i];
      if k in ks && Count(pw, k) > 0 {
        if k in front {
          var i :| 0 <= i < |f| && f[i].0 == k;
          assert g[i].0 == k;
        } else {
          assert k == last && g[|g| - 1] == (k, Count(pw, k));
        }
      }
    }
  }

  /** A class is found exactly when some byte of the password is in it. */
  lemma FoundExactly(pw: seq<Byte>, k: CharClass)
    ensures (exists i :: 0 <= i < |FoundClasses(pw)| && FoundClasses(pw)[i].0 == k)
        <==> (exists i :: 0 <= i < |pw| && ClassOf(pw[i]) == k)
  {
    FoundAmongHas(pw, ClassOrder, k);
    assert FoundClasses(pw) == FoundAmong(pw, ClassOrder);
    assert Count(pw, k) == |Kept(pw, k)|;
    assert k in ClassOrder by {
      assert ClassOrder[0] == Lower && ClassOrder[1] == Upper && ClassOrder[2] == Digit;
      assert ClassOrder[3] == Joiner && ClassOrder[4] == Special;
    }
  }

  /** The tier is always one of the five. */
  lemma StrengthRange(pw: seq<Byte>)
    ensures VeryWeak <= Strength(pw) <= VeryStrong
  {
  }

  /** No classes means an empty password, which is very weak. */
  lemma EmptyIsVeryWeak(pw: seq<Byte>)
    ensures |FoundClasses(pw)| == 0 <==> pw == []
    ensures pw == [] ==> Strength(pw) == VeryWeak
  {
    CountsPartition(pw);
  }

  /** One class: weak from 20 bytes on, very weak below. */
  lemma OneClass(pw: seq<Byte>)
    requires |FoundClasses(pw)| == 1
    ensures Strength(pw) == Weak <==> |pw| >= 20
    ensures Strength(pw) == VeryWeak <==> |pw| < 20
  {
  }

  /** Two classes: acceptable needs 22 bytes and 7 of each class, weak
      needs 12 bytes. */
  lemma TwoClasses(pw: seq<Byte>)
    requires |FoundClasses(pw)| == 2
    ensures |pw| >= 12 ==> Strength(pw) >= Weak
    ensures |pw| >= 22 && AllAtLeast(FoundClasses(pw), 7) ==> Strength(pw) == Acceptable
    ensures Strength(pw) <= Acceptable
    ensures Strength(pw) == Acceptable ==> |pw| >= 22 && AllAtLeast(FoundClasses(pw), 7)
  {
  }

  /** Three classes: weak from 8 bytes, acceptable from 10 bytes with 2 of
      each class, strong from 22 bytes with 5 of each class. */
  lemma ThreeClasses(pw: seq<Byte>)
    requires |FoundClasses(pw)| == 3
    ensures |pw| >= 8 ==> Strength(pw) >= Weak
    ensures |pw| >= 10 && AllAtLeast(FoundClasses(pw), 2) ==> Strength(pw) >= Acceptable
    ensures |pw| >= 22 && AllAtLeast(FoundClasses(pw), 5) <==> Strength(pw) == Strong
    ensures Strength(pw) <= Strong
  {
  }

  /** Four or five classes: acceptable from 10 bytes, strong from 15 bytes
      with 2 of each class, very strong from 22 bytes with 3 of each. */
  lemma FourOrMoreClasses(pw: seq<Byte>)
    requires |FoundClasses(pw)| >= 4
    ensures |pw| >= 8 ==> Strength(pw) >= Weak
    ensures |pw| >= 10 ==> Strength(pw) >= Acceptable
    ensures |pw| >= 15 && AllAtLeast(FoundClasses(pw), 2) ==> Strength(pw) >= Strong
    ensures |pw| >= 22 && AllAtLeast(FoundClasses(pw), 3) <==> Strength(pw) == VeryStrong
  {
  }

  /** The tiers are not monotone in the password: one more special
      character turns a strong password of 8 lower-case letters, 7
      upper-case letters and 7 digits into a merely acceptable four-class
      one, since the new class has fewer than two characters. */
  lemma OneMoreCharacterCanWeaken(pw: seq<Byte>)
    requires Count(pw, Lower) == 8 && Count(pw, Upper) == 7 && Count(pw, Digit) == 7
    requires Count(pw, Joiner) == 0 && Count(pw, Special) == 0
    ensures Strength(pw) == Strong
    ensures Strength(pw + ['!' as int]) == Acceptable
  {
    StrongWithThreeClasses(pw);
    var more := pw + ['!' as int];
    assert Count(more, Lower) == 8 && Count(more, Upper) == 7 && Count(more, Digit) == 7
        && Count(more, Joiner) == 0 && Count(more, Special) == 1 by {
      var bang: seq<Byte> := ['!' as int];
      KeptOfConcat(pw, bang);
      assert Kept(bang, Special) == bang;
      assert Kept(bang, Lower) == Kept(bang, Upper) == Kept(bang, Digit) == Kept(bang, Joiner) == [];
    }
    AcceptableWithFourClasses(more);
  }

  lemma StrongWithThreeClasses(pw: seq<Byte>)
    requires Count(pw, Lower) == 8 && Count(pw, Upper) == 7 && Count(pw, Digit) == 7
    requires Count(pw, Joiner) == 0 && Count(pw, Special) == 0
    ensures Strength(pw) == Strong
  {
    CountsAddUp(pw);
    FoundOfCounts(pw);
    var f := FoundClasses(pw);
    assert f == [(Lower, 8), (Upper, 7), (Digit, 7)];
    assert AllAtLeast(f, 5);
  }

  lemma AcceptableWithFourClasses(pw: seq<Byte>)
    requires Count(pw, Lower) == 8 && Count(pw, Upper) == 7 && Count(pw, Digit) == 7
    requires Count(pw, Joiner) == 0 && Count(pw, Special) == 1
    ensures Strength(pw) == Acceptable
  {
    CountsAddUp(pw);
    FoundOfCounts(pw);
    var f := FoundClasses(pw);
    assert f == [(Lower, 8), (Upper, 7), (Digit, 7), (Special, 1)];
    assert !AllAtLeast(f, 3) by { assert f[3].1 < 3; }
    assert !AllAtLeast(f, 2) by { assert f[3].1 < 2; }
  }

  lemma {:induction false} KeptOfConcat(a: seq<Byte>, b: seq<Byte>)
    ensures forall k :: Kept(a + b, k) == Kept(a, k) + Kept(b, k)
    decreases |a|
  {
    if a == [] {
      assert a + b == b;
    } else {
      assert (a + b)[1..] == a[1..] + b;
      KeptOfConcat(a[1..], b);
    }
  }

  function Entry(pw: seq<Byte>, k: CharClass): Found
  {
    if Count(pw, k) > 0 then [(k, Count(pw, k))] else []
  }

  /** The classes found, read off the five counts. */
  lemma FoundOfCounts(pw: seq<Byte>)
    ensures FoundClasses(pw)
         == Entry(pw, Lower) + Entry(pw, Upper) + Entry(pw, Digit) + Entry(pw, Joiner) + Entry(pw, Special)
  {
    var s1: seq<CharClass> := [Lower];
    var s2 := s1 + [Upper];
    var s3 := s2 + [Digit];
    var s4 := s3 + [Joiner];
    assert s4 + [Special] == ClassOrder;
    assert (s4 + [Special])[..4] == s4 && s4[..3] == s3 && s3[..2] == s2 && s2[..1] == s1 && s1[..0] == [];
    assert FoundAmong(pw, s1) == Entry(pw, Lower);
    assert FoundAmong(pw, s2) == FoundAmong(pw, s1) + Entry(pw, Upper);
    assert FoundAmong(pw, s3) == FoundAmong(pw, s2) + Entry(pw, Digit);
    assert FoundAmong(pw, s4) == FoundAmong(pw, s3) + Entry(pw, Joiner);
    assert FoundAmong(pw, ClassOrder) == FoundAmong(pw, s4) + Entry(pw, Special);
  }
}
