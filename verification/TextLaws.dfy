/** What the shared string functions mean, letter by letter. */
module TextLaws {
  import opened Text

  /** Letter number `i` of the alphabet, in either case. */
  function Small(i: nat): char
    requires i < 26
  {
    ('a' as int + i) as char
  }

  function Capital(i: nat): char
    requires i < 26
  {
    ('A' as int + i) as char
  }

  ghost predicate IsLetter(c: char) {
    exists i: nat :: i < 26 && (c == Small(i) || c == Capital(i))
  }

  lemma LetterNumber(c: char) returns (i: nat)
    requires 'a' <= c <= 'z' || 'A' <= c <= 'Z'
    ensures i < 26 && (c == Small(i) || c == Capital(i))
  {
    i := if 'a' <= c <= 'z' then c as int - 'a' as int else c as int - 'A' as int;
  }

  /** Folding maps each letter to the same letter of the other case, and nothing else anywhere. */
  lemma FoldingIsByLetter(i: nat, c: char)
    requires i < 26
    ensures LowerChar(Capital(i)) == Small(i) == LowerChar(Small(i))
    ensures UpperChar(Small(i)) == Capital(i) == UpperChar(Capital(i))
    ensures !IsLetter(c) ==> LowerChar(c) == c && UpperChar(c) == c
  {
    if 'a' <= c <= 'z' || 'A' <= c <= 'Z' {
      var k := LetterNumber(c);
    }
  }

  /** Two characters are one letter, up to case. */
  ghost predicate SameLetter(a: char, b: char) {
    a == b || exists i: nat :: i < 26 && a in {Small(i), Capital(i)} && b in {Small(i), Capital(i)}
  }

  lemma SameLetterIff(a: char, b: char)
    ensures SameLetter(a, b) <==> LowerChar(a) == LowerChar(b)
    ensures SameLetter(a, b) <==> UpperChar(a) == UpperChar(b)
  {
    if LowerChar(a) == LowerChar(b) || UpperChar(a) == UpperChar(b) {
      if a != b {
        var i := LetterNumber(a);
        assert a in {Small(i), Capital(i)} && b in {Small(i), Capital(i)};
      }
    }
    if SameLetter(a, b) && a != b {
      var i: nat :| i < 26 && a in {Small(i), Capital(i)} && b in {Small(i), Capital(i)};
      FoldingIsByLetter(i, a);
    }
  }

  /** `s` reads `word`, in any case. */
  ghost predicate Spells(s: string, word: string) {
    |s| == |word| && forall i :: 0 <= i < |s| ==> SameLetter(s[i], word[i])
  }

  lemma SpellsIff(s: string, word: string)
    ensures Spells(s, word) <==> Lower(s) == Lower(word)
    ensures Spells(s, word) <==> Upper(s) == Upper(word)
  {
    hide SameLetter;
    hide LowerChar;
    hide UpperChar;
    forall i | 0 <= i < |s| && |s| == |word|
      ensures SameLetter(s[i], word[i]) <==> Lower(s)[i] == Lower(word)[i]
      ensures SameLetter(s[i], word[i]) <==> Upper(s)[i] == Upper(word)[i]
    {
      SameLetterIff(s[i], word[i]);
    }
  }

  /** Word characters are the letters, the digits and the underscore; white space is the blank, the
      characters from tab to carriage return and the four separators. */
  lemma CharacterClasses(c: char)
    ensures IsWord(c) <==> IsLetter(c) || '0' <= c <= '9' || c == '_'
    ensures IsSpace(c) <==> c == ' ' || c as int in {9, 10, 11, 12, 13, 28, 29, 30, 31}
  {
    if 'a' <= c <= 'z' || 'A' <= c <= 'Z' {
      var i := LetterNumber(c);
    }
  }

  /** The number a digit string denotes. */
  function Value(s: string): int {
    if s == "" then 0 else 10 * Value(s[..|s| - 1]) + (s[|s| - 1] as int - '0' as int)
  }

  lemma {:induction false} ValueOfDecimal(n: nat)
    ensures Value(Decimal(n)) == n && Decimal(n) != ""
    ensures forall i :: 0 <= i < |Decimal(n)| ==> '0' <= Decimal(n)[i] <= '9'
    decreases n
  {
    if n < 10 {
      assert Decimal(n)[..0] == "";
    } else {
      ValueOfDecimal(n / 10);
      assert Decimal(n)[..|Decimal(n)| - 1] == Decimal(n / 10);
    }
  }

  /** `s` is the number `n` in decimal: its digits, with a minus sign if it is negative. */
  ghost predicate Denotes(s: string, n: int) {
    if n < 0 then s != "" && s[0] == '-' && IsNumeral(s[1..]) && Value(s[1..]) == -n
    else IsNumeral(s) && Value(s) == n
  }

  /** Digits, without a leading zero unless there is nothing else. */
  predicate IsNumeral(s: string) {
    s != "" && (|s| > 1 ==> s[0] != '0') && forall i :: 0 <= i < |s| ==> '0' <= s[i] <= '9'
  }

  lemma {:induction false} DecimalIsNumeral(n: nat)
    ensures IsNumeral(Decimal(n)) && (n > 0 ==> Decimal(n)[0] != '0')
    decreases n
  {
    ValueOfDecimal(n);
    if n >= 10 {
      DecimalIsNumeral(n / 10);
      assert Decimal(n)[0] == Decimal(n / 10)[0];
    }
  }

  lemma SignedDenotes(n: int)
    ensures Denotes(Signed(n), n)
  {
    hide Decimal;
    ValueOfDecimal(if n < 0 then -n else n);
    DecimalIsNumeral(if n < 0 then -n else n);
    if n < 0 {
      assert Signed(n)[1..] == Decimal(-n);
    }
  }
}
