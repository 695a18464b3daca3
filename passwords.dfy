/** The password policies (src/bin/2020-02.rs): each entry of the password file carries two
    numbers, a letter and a password, already read from its line. */
module Passwords {
  import opened Text

  /** `PasswordEntry`. */
  datatype PasswordEntry = PasswordEntry(num1: nat, num2: nat, letter: char, password: string)

  /** `validate_letter_count`: the letter occurs between `num1` and `num2` times, both
      bounds included. A valid entry's lower bound is at most its upper bound and the
      password's length; a letter that is absent passes only a lower bound of zero. */
  function ValidLetterCount(entry: PasswordEntry): (r: bool)
    ensures r ==> entry.num1 <= entry.num2 && entry.num1 <= |entry.password|
    ensures entry.letter !in entry.password ==> (r <==> entry.num1 == 0)
  {
    entry.num1 <= Occurrences(entry.password, entry.letter) <= entry.num2
  }

  /** The count is the letter's multiplicity in the password. */
  lemma ValidLetterCountMeans(entry: PasswordEntry)
    ensures ValidLetterCount(entry) <==> entry.num1 <= multiset(entry.password)[entry.letter] <= entry.num2
  {
    OccurrencesMultiset(entry.password, entry.letter);
  }

  /** Both 1-based positions lie inside the password; the source subtracts one from each
      and unwraps the character there, panicking otherwise. */
  predicate PositionsInside(entry: PasswordEntry)
  {
    1 <= entry.num1 <= |entry.password| && 1 <= entry.num2 <= |entry.password|
  }

  /** `validate_letter_position`: exactly one of the two 1-based positions holds the letter. */
  function ValidLetterPosition(entry: PasswordEntry): (r: bool)
    requires PositionsInside(entry)
    ensures r <==> (entry.password[entry.num1 - 1] == entry.letter) != (entry.password[entry.num2 - 1] == entry.letter)
    ensures entry.num1 == entry.num2 ==> !r
  {
    var pos1 := entry.password[entry.num1 - 1] == entry.letter;
    var pos2 := entry.password[entry.num2 - 1] == entry.letter;
    pos1 != pos2
  }

  /** The positions do not both hold the letter, nor both miss it. */
  lemma ValidPositionExactlyOne(entry: PasswordEntry)
    requires PositionsInside(entry)
    ensures ValidLetterPosition(entry) <==>
      var p := entry.password; var l := entry.letter;
      (p[entry.num1 - 1] == l && p[entry.num2 - 1] != l) || (p[entry.num1 - 1] != l && p[entry.num2 - 1] == l)
  {
  }

  /** `count_valid_letter_counts`: how many entries pass `validate_letter_count`. */
  function CountValidLetterCounts(entries: seq<PasswordEntry>): (n: nat)
    ensures n <= |entries|
    ensures n == |entries| <==> forall i :: 0 <= i < |entries| ==> ValidLetterCount(entries[i])
    ensures n == 0 <==> forall i :: 0 <= i < |entries| ==> !ValidLetterCount(entries[i])
  {
    if entries == [] then 0
    else
      var rest := CountValidLetterCounts(entries[1..]);
      assert forall i :: 1 <= i < |entries| ==> entries[i] == entries[1..][i - 1];
      (if ValidLetterCount(entries[0]) then 1 else 0) + rest
  }

  /** Counting the entries of two files is counting each. */
  lemma {:induction false} CountValidLetterCountsAppend(a: seq<PasswordEntry>, b: seq<PasswordEntry>)
    ensures CountValidLetterCounts(a + b) == CountValidLetterCounts(a) + CountValidLetterCounts(b)
  {
    if a != [] {
      assert (a + b)[1..] == a[1..] + b;
      CountValidLetterCountsAppend(a[1..], b);
    } else {
      assert a + b == b;
    }
  }

  /** `count_valid_letter_positions`: how many entries pass `validate_letter_position`,
      every one of which must have both positions inside its password. */
  function CountValidLetterPositions(entries: seq<PasswordEntry>): (n: nat)
    requires forall i :: 0 <= i < |entries| ==> PositionsInside(entries[i])
    ensures n <= |entries|
    ensures n == |entries| <==> forall i :: 0 <= i < |entries| ==> ValidLetterPosition(entries[i])
    ensures n == 0 <==> forall i :: 0 <= i < |entries| ==> !ValidLetterPosition(entries[i])
  {
    if entries == [] then 0
    else
      assert forall i :: 1 <= i < |entries| ==> entries[i] == entries[1..][i - 1];
      var rest := CountValidLetterPositions(entries[1..]);
      (if ValidLetterPosition(entries[0]) then 1 else 0) + rest
  }

  /** Counting the entries of two files is counting each. */
  lemma {:induction false} CountValidLetterPositionsAppend(a: seq<PasswordEntry>, b: seq<PasswordEntry>)
    requires forall i :: 0 <= i < |a| ==> PositionsInside(a[i])
    requires forall i :: 0 <= i < |b| ==> PositionsInside(b[i])
    ensures forall i :: 0 <= i < |a + b| ==> PositionsInside((a + b)[i])
    ensures CountValidLetterPositions(a + b) == CountValidLetterPositions(a) + CountValidLetterPositions(b)
  {
    assert forall i :: 0 <= i < |a + b| ==> (a + b)[i] == if i < |a| then a[i] else b[i - |a|];
    if a != [] {
      assert (a + b)[1..] == a[1..] + b;
      CountValidLetterPositionsAppend(a[1..], b);
    } else {
      assert a + b == b;
    }
  }

  /** The first unit test of `validate_letter_count`: nine occurrences pass 3..12. */
  lemma LetterCountExample(entry: PasswordEntry)
    requires entry == PasswordEntry(3, 12, 'v', "vvvvvvvvv")
    ensures ValidLetterCount(entry)
  {
    ValidLetterCountMeans(entry);
    assert multiset(entry.password)['v'] == 9;
  }

  /** The second unit test of `validate_letter_count`: "3-12 v: zbvlbpxcrnvvwjpwl" holds the
      letter three times, so it passes the inclusive bounds. */
  lemma LetterCountThreeExample(entry: PasswordEntry)
    requires entry == PasswordEntry(3, 12, 'v', "zbvlbpxcrnvvwjpwl")
    ensures ValidLetterCount(entry)
  {
    var p := entry.password;
    assert forall i :: 0 <= i < |p| ==> (p[i] == 'v' <==> i == 2 || i == 10 || i == 11);
    ThreeVs(p);
  }

  /** A password of 17 characters holding 'v' at the 0-based positions 2, 10 and 11 only. */
  lemma ThreeVs(s: string)
    requires |s| == 17
    requires forall i :: 0 <= i < |s| ==> (s[i] == 'v' <==> i == 2 || i == 10 || i == 11)
    ensures Occurrences(s, 'v') == 3
  {
    forall k | 0 <= k < |s|
      ensures Occurrences(s[..k + 1], 'v') == Occurrences(s[..k], 'v') + (if k == 2 || k == 10 || k == 11 then 1 else 0)
    {
      OccurrencesPrefix(s, k, 'v');
    }
    assert Occurrences(s[..0], 'v') == 0;
    assert Occurrences(s[..1], 'v') == 0;
    assert Occurrences(s[..2], 'v') == 0;
    assert Occurrences(s[..3], 'v') == 1;
    assert Occurrences(s[..4], 'v') == 1;
    assert Occurrences(s[..5], 'v') == 1;
    assert Occurrences(s[..6], 'v') == 1;
    assert Occurrences(s[..7], 'v') == 1;
    assert Occurrences(s[..8], 'v') == 1;
    assert Occurrences(s[..9], 'v') == 1;
    assert Occurrences(s[..10], 'v') == 1;
    assert Occurrences(s[..11], 'v') == 2;
    assert Occurrences(s[..12], 'v') == 3;
    assert Occurrences(s[..13], 'v') == 3;
    assert Occurrences(s[..14], 'v') == 3;
    assert Occurrences(s[..15], 'v') == 3;
    assert Occurrences(s[..16], 'v') == 3;
    assert Occurrences(s[..17], 'v') == 3;
    assert s[..17] == s;
  }

  /** The unit test of `validate_letter_position`: position 3 holds 'v', position 12 does not. */
  lemma LetterPositionExample()
    ensures ValidLetterPosition(PasswordEntry(3, 12, 'v', "xxvxxxxxxxxxxxxx"))
  {
  }
}
