/** The naughty-or-nice rules (src/bin/2015-05.rs). The first rules ask for three vowels, no
    blocklisted pair and a doubled letter; the second rules ask for a pair of letters that
    occurs twice without overlapping and a letter repeated with one letter between. Strings
    are sequences of characters; the source's byte slices agree with them on ASCII text. */
module NiceStrings {
  import opened Text

  /** `VOWELS`: a, e, i, o and u. */
  predicate IsVowel(c: char)
  {
    c == 'a' || c == 'e' || c == 'i' || c == 'o' || c == 'u'
  }

  /** How many characters of `s` from position `i` on are vowels. */
  function VowelsFrom(s: string, i: nat): (n: nat)
    requires i <= |s|
    ensures n <= |s| - i
    decreases |s| - i
  {
    if i == |s| then 0 else (if IsVowel(s[i]) then 1 else 0) + VowelsFrom(s, i + 1)
  }

  /** The number of vowels in `s`. */
  function CountVowels(s: string): (n: nat)
    ensures n <= |s|
  {
    VowelsFrom(s, 0)
  }

  /** The vowels counted are how often a, e, i, o and u occur, together. */
  lemma {:induction false} VowelsFromOccurrences(s: string, i: nat)
    requires i <= |s|
    ensures VowelsFrom(s, i) == multiset(s[i..])['a'] + multiset(s[i..])['e']
      + multiset(s[i..])['i'] + multiset(s[i..])['o'] + multiset(s[i..])['u']
    decreases |s| - i
  {
    if i < |s| {
      assert s[i..] == [s[i]] + s[i + 1..];
      VowelsFromOccurrences(s, i + 1);
    }
  }

  lemma CountVowelsOccurrences(s: string)
    ensures CountVowels(s) == multiset(s)['a'] + multiset(s)['e'] + multiset(s)['i']
      + multiset(s)['o'] + multiset(s)['u']
  {
    VowelsFromOccurrences(s, 0);
    assert s[0..] == s;
  }

  /** `contains_n_vowels`: at least `n` of the characters are vowels. */
  function ContainsNVowels(s: string, n: nat): (r: bool)
    ensures r ==> n <= |s|
    ensures n == 0 ==> r
  {
    CountVowels(s) >= n
  }

  /** `w` occurs in `s` starting at position `i`. */
  predicate OccursAt(s: string, w: string, i: nat)
  {
    i + |w| <= |s| && s[i..i + |w|] == w
  }

  /** The characters of `w` from `k` on stand in `s` from position `i + k` on. */
  function MatchesFrom(s: string, w: string, i: nat, k: nat): bool
    requires i + |w| <= |s| && k <= |w|
    decreases |w| - k
  {
    k == |w| || (s[i + k] == w[k] && MatchesFrom(s, w, i, k + 1))
  }

  lemma {:induction false} MatchesFromMeans(s: string, w: string, i: nat, k: nat)
    requires i + |w| <= |s| && k <= |w|
    ensures MatchesFrom(s, w, i, k) <==> s[i + k..i + |w|] == w[k..]
    decreases |w| - k
  {
    if k < |w| {
      MatchesFromMeans(s, w, i, k + 1);
      assert s[i + k..i + |w|] == [s[i + k]] + s[i + k + 1..i + |w|];
      assert w[k..] == [w[k]] + w[k + 1..];
    }
  }

  /** `w` occurs in `s` at some position from `i` on. */
  function ContainsFrom(s: string, w: string, i: nat): bool
    decreases |s| - i
  {
    if i + |w| > |s| then false else MatchesFrom(s, w, i, 0) || ContainsFrom(s, w, i + 1)
  }

  lemma {:induction false} ContainsFromMeans(s: string, w: string, i: nat)
    ensures ContainsFrom(s, w, i) <==> exists j: nat :: i <= j && OccursAt(s, w, j)
    decreases |s| - i
  {
    if i + |w| <= |s| {
      ContainsFromMeans(s, w, i + 1);
      MatchesFromMeans(s, w, i, 0);
      assert w[0..] == w;
      if MatchesFrom(s, w, i, 0) {
        assert s[i + 0..i + |w|] == w[0..];
        assert OccursAt(s, w, i);
      }
      if exists j: nat :: i <= j && OccursAt(s, w, j) {
        var j: nat :| i <= j && OccursAt(s, w, j);
        if j == i {
          assert s[i + 0..i + |w|] == w[0..];
          assert MatchesFrom(s, w, i, 0);
        } else {
          assert i + 1 <= j && OccursAt(s, w, j);
          assert ContainsFrom(s, w, i + 1);
        }
      }
    }
  }

  /** `s.contains(w)`. */
  function Contains(s: string, w: string): bool
  {
    ContainsFrom(s, w, 0)
  }

  /** `s.contains(w)` holds exactly when `w` occurs in `s` as a run of consecutive
      characters. */
  lemma ContainsMeans(s: string, w: string)
    ensures Contains(s, w) <==> exists j: nat :: OccursAt(s, w, j)
  {
    ContainsFromMeans(s, w, 0);
  }

  /** `BLOCKLISTED`: the pairs a nice string must not contain. */
  predicate IsBlocklistedPair(p: string)
  {
    p == "ab" || p == "cd" || p == "pq" || p == "xy"
  }

  /** `blocklisted`: `s` contains one of the blocklisted pairs, that is, one of its pairs of
      neighbouring characters is "ab", "cd", "pq" or "xy". */
  function Blocklisted(s: string): (r: bool)
    ensures r <==> exists i: nat :: i + 2 <= |s| && IsBlocklistedPair(PairAt(s, i))
  {
    BlocklistedPairs(s);
    Contains(s, "ab") || Contains(s, "cd") || Contains(s, "pq") || Contains(s, "xy")
  }

  /** Containing one of the four pairs is having it at some position. */
  lemma BlocklistedPairs(s: string)
    ensures Contains(s, "ab") || Contains(s, "cd") || Contains(s, "pq") || Contains(s, "xy")
      <==> exists i: nat :: i + 2 <= |s| && IsBlocklistedPair(PairAt(s, i))
  {
    ContainsMeans(s, "ab");
    ContainsMeans(s, "cd");
    ContainsMeans(s, "pq");
    ContainsMeans(s, "xy");
    forall i: nat | i + 2 <= |s|
      ensures IsBlocklistedPair(PairAt(s, i)) <==>
        OccursAt(s, "ab", i) || OccursAt(s, "cd", i) || OccursAt(s, "pq", i) || OccursAt(s, "xy", i)
    {
    }
  }

  /** Some character from position `i` on equals the one `above` places after it. */
  function RepeatsFrom(s: string, above: nat, i: nat): bool
    decreases |s| - i
  {
    if i + above >= |s| then false else s[i] == s[i + above] || RepeatsFrom(s, above, i + 1)
  }

  lemma {:induction false} RepeatsFromMeans(s: string, above: nat, i: nat)
    ensures RepeatsFrom(s, above, i) <==> exists j: nat :: i <= j && j + above < |s| && s[j] == s[j + above]
    decreases |s| - i
  {
    if i + above < |s| {
      RepeatsFromMeans(s, above, i + 1);
    }
  }

  /** `contains_repeating`: some character equals the one `above` places after it; the
      characters too close to the end to have a partner are not compared. */
  function ContainsRepeating(s: string, above: nat): (r: bool)
    ensures r <==> exists j: nat :: j + above < |s| && s[j] == s[j + above]
  {
    RepeatsFromMeans(s, above, 0);
    RepeatsFrom(s, above, 0)
  }

  /** The two characters starting at position `i`. */
  function PairAt(s: string, i: nat): string
    requires i + 2 <= |s|
  {
    s[i..i + 2]
  }

  /** The same pair of characters starts at `i` and, without overlapping it, at `j`. */
  ghost predicate RepeatedPair(s: string)
  {
    exists i: nat, j: nat :: i + 1 < j && j + 2 <= |s| && PairAt(s, i) == PairAt(s, j)
  }

  /** The positions `(i, i + 1)` of the pair `p` among the first `k` pairs of `s`, in order. */
  ghost function PairPositions(s: string, p: string, k: nat): seq<(nat, nat)>
    requires k + 1 <= |s|
  {
    if k == 0 then []
    else PairPositions(s, p, k - 1) + (if PairAt(s, k - 1) == p then [(k - 1, k)] else [])
  }

  /** What the recorded positions of a pair are. */
  lemma PairPositionsMeans(s: string, p: string, k: nat, x: (nat, nat))
    requires k + 1 <= |s|
    ensures x in PairPositions(s, p, k) <==> x.0 < k && x.1 == x.0 + 1 && PairAt(s, x.0) == p
  {
    if x in PairPositions(s, p, k) {
      PairPositionsSound(s, p, k, x);
    }
    if x.0 < k && x.1 == x.0 + 1 && PairAt(s, x.0) == p {
      PairPositionsComplete(s, p, k, x.0);
    }
  }

  lemma {:induction false} PairPositionsSound(s: string, p: string, k: nat, x: (nat, nat))
    requires k + 1 <= |s| && x in PairPositions(s, p, k)
    ensures x.0 < k && x.1 == x.0 + 1 && PairAt(s, x.0) == p
  {
    var before := PairPositions(s, p, k - 1);
    if x in before {
      PairPositionsSound(s, p, k - 1, x);
    } else {
      assert PairAt(s, k - 1) == p && x == (k - 1, k);
    }
  }

  lemma {:induction false} PairPositionsComplete(s: string, p: string, k: nat, i: nat)
    requires i < k && k + 1 <= |s| && PairAt(s, i) == p
    ensures (i, i + 1) in PairPositions(s, p, k)
  {
    var before := PairPositions(s, p, k - 1);
    if i < k - 1 {
      PairPositionsComplete(s, p, k - 1, i);
      assert PairPositions(s, p, k)[..|before|] == before;
    } else {
      assert PairPositions(s, p, k) == before + [(i, i + 1)];
    }
  }

  /** `pairs`: the first loop records, for every two-character pair, the positions where it
      occurs; the second tries every two occurrences of the same pair for one ending before
      the other begins. The source computes `input.len() - 1`, which underflows on an empty
      input, so the input must not be empty. */
  method Pairs(input: string) returns (found: bool)
    requires |input| >= 1
    ensures found <==> RepeatedPair(input)
  {
    var positions := RecordPairs(input);
    found := SearchPairs(input, positions);
    if found {
      ghost var p :| p in positions && SomeDisjoint(positions[p]);
      ghost var occurrences := positions[p];
      ghost var a, b :| 0 <= a < |occurrences| && 0 <= b < |occurrences| && occurrences[a].1 < occurrences[b].0;
      PositionsGiveRepeat(input, p, occurrences[a], occurrences[b]);
    } else {
      NoDisjointNoRepeat(input, positions);
    }
  }

  /** The first loop of `pairs`: every pair of neighbouring characters, mapped to the
      positions where it occurs, in order. */
  method RecordPairs(input: string) returns (positions: map<string, seq<(nat, nat)>>)
    requires |input| >= 1
    ensures forall p :: p in positions ==> positions[p] == PairPositions(input, p, |input| - 1)
    ensures forall i :: 0 <= i < |input| - 1 ==> PairAt(input, i) in positions
  {
    positions := map[];
    for index := 0 to |input| - 1
      invariant Recorded(input, positions, index)
    {
      var pair := input[index..index + 2];
      var entry := if pair in positions then positions[pair] else [];
      RecordStep(input, positions, index);
      positions := positions[pair := entry + [(index, index + 1)]];
    }
  }

  /** The map holds, for every pair among the first `k`, the positions where it occurs, and
      nothing else. */
  ghost predicate Recorded(input: string, positions: map<string, seq<(nat, nat)>>, k: nat)
    requires k + 1 <= |input|
  {
    (forall p :: p in positions ==> positions[p] == PairPositions(input, p, k)) &&
    (forall i :: 0 <= i < k ==> PairAt(input, i) in positions)
  }

  /** Recording the pair at `index` extends its positions and keeps the other pairs. */
  lemma RecordStep(input: string, positions: map<string, seq<(nat, nat)>>, index: nat)
    requires index + 2 <= |input| && Recorded(input, positions, index)
    ensures var pair := PairAt(input, index);
      var entry := if pair in positions then positions[pair] else [];
      Recorded(input, positions[pair := entry + [(index, index + 1)]], index + 1)
  {
    var pair := PairAt(input, index);
    var entry := if pair in positions then positions[pair] else [];
    assert entry == PairPositions(input, pair, index) by {
      if pair !in positions {
        NoPositions(input, pair, index);
      }
    }
  }

  /** The second loop of `pairs`: over the recorded pairs, skipping those seen once. */
  method SearchPairs(input: string, positions: map<string, seq<(nat, nat)>>) returns (found: bool)
    requires |input| >= 1
    requires forall p :: p in positions ==> positions[p] == PairPositions(input, p, |input| - 1)
    ensures found <==> exists p :: p in positions && SomeDisjoint(positions[p])
  {
    var remaining := positions.Keys;
    while remaining != {}
      invariant remaining <= positions.Keys
      invariant forall p :: p in positions && p !in remaining ==> !SomeDisjoint(positions[p])
      decreases remaining
    {
      var pair :| pair in remaining;
      var occurrences := positions[pair];
      remaining := remaining - {pair};
      if |occurrences| == 1 {
        assert !SomeDisjoint(occurrences) by {
          PairPositionsMeans(input, pair, |input| - 1, occurrences[0]);
        }
        continue;
      }
      var disjoint := HasDisjoint(occurrences);
      if disjoint {
        return true;
      }
    }
    found := false;
  }

  /** The two inner loops of `pairs`: some recorded position ends before another begins. */
  method HasDisjoint(occurrences: seq<(nat, nat)>) returns (found: bool)
    ensures found <==> SomeDisjoint(occurrences)
  {
    for a := 0 to |occurrences|
      invariant forall i, j :: 0 <= i < a && 0 <= j < |occurrences| ==> occurrences[i].1 >= occurrences[j].0
    {
      for b := 0 to |occurrences|
        invariant forall j :: 0 <= j < b ==> occurrences[a].1 >= occurrences[j].0
      {
        if occurrences[a].1 < occurrences[b].0 {
          return true;
        }
      }
    }
    found := false;
  }

  /** When no pair has two recorded positions one before the other, no pair repeats. */
  lemma NoDisjointNoRepeat(s: string, positions: map<string, seq<(nat, nat)>>)
    requires |s| >= 1
    requires forall p :: p in positions ==> positions[p] == PairPositions(s, p, |s| - 1)
    requires forall i :: 0 <= i < |s| - 1 ==> PairAt(s, i) in positions
    requires forall p :: p in positions ==> !SomeDisjoint(positions[p])
    ensures !RepeatedPair(s)
  {
    forall i: nat, j: nat | i + 1 < j && j + 2 <= |s|
      ensures PairAt(s, i) != PairAt(s, j)
    {
      var p := PairAt(s, i);
      assert p in positions;
      RecordedNotRepeated(s, positions[p], i, j);
    }
  }

  /** The recorded positions of the pair at `i`, none before another. */
  lemma RecordedNotRepeated(s: string, occurrences: seq<(nat, nat)>, i: nat, j: nat)
    requires i + 1 < j && j + 2 <= |s|
    requires occurrences == PairPositions(s, PairAt(s, i), |s| - 1)
    requires !SomeDisjoint(occurrences)
    ensures PairAt(s, i) != PairAt(s, j)
  {
    RecordedAt(s, PairAt(s, i), occurrences, i);
    RecordedAt(s, PairAt(s, i), occurrences, j);
    NotRepeatedAt(s, occurrences, i, j);
  }

  /** Every occurrence of a pair is among its recorded positions. */
  lemma RecordedAt(s: string, p: string, occurrences: seq<(nat, nat)>, j: nat)
    requires j + 2 <= |s| && occurrences == PairPositions(s, p, |s| - 1)
    ensures PairAt(s, j) == p ==> (j, j + 1) in occurrences
  {
    PairPositionsMeans(s, p, |s| - 1, (j, j + 1));
  }

  /** The positions recorded for the pair at `i`, none before another, rule out a later
      copy of it at `j`. */
  lemma NotRepeatedAt(s: string, occurrences: seq<(nat, nat)>, i: nat, j: nat)
    requires i + 1 < j && j + 2 <= |s|
    requires (i, i + 1) in occurrences
    requires PairAt(s, j) == PairAt(s, i) ==> (j, j + 1) in occurrences
    requires !SomeDisjoint(occurrences)
    ensures PairAt(s, i) != PairAt(s, j)
  {
  }

  /** Two of the recorded positions, one ending before the other begins. */
  ghost predicate SomeDisjoint(occurrences: seq<(nat, nat)>)
  {
    exists a, b :: 0 <= a < |occurrences| && 0 <= b < |occurrences| && occurrences[a].1 < occurrences[b].0
  }

  /** A pair never seen among the first `k` pairs has no recorded positions. */
  lemma NoPositions(s: string, p: string, k: nat)
    requires k + 1 <= |s|
    requires forall i :: 0 <= i < k ==> PairAt(s, i) != p
    ensures PairPositions(s, p, k) == []
  {
    if k > 0 {
      NoPositions(s, p, k - 1);
    }
  }

  /** Two recorded positions of one pair, the first ending before the second begins. */
  lemma PositionsGiveRepeat(s: string, p: string, x: (nat, nat), y: (nat, nat))
    requires |s| >= 1
    requires x in PairPositions(s, p, |s| - 1) && y in PairPositions(s, p, |s| - 1)
    requires x.1 < y.0
    ensures RepeatedPair(s)
  {
    PairPositionsMeans(s, p, |s| - 1, x);
    PairPositionsMeans(s, p, |s| - 1, y);
    assert PairAt(s, x.0) == PairAt(s, y.0);
  }

  /** `is_nice_1`: three vowels, no blocklisted pair, and a doubled letter. */
  function IsNice1(line: string): (r: bool)
    ensures r <==>
      CountVowels(line) >= 3
      && !(exists i: nat :: i + 2 <= |line| && IsBlocklistedPair(PairAt(line, i)))
      && (exists j: nat :: j + 1 < |line| && line[j] == line[j + 1])
    ensures r ==> |line| >= 3
  {
    ContainsNVowels(line, 3) && !Blocklisted(line) && ContainsRepeating(line, 1)
  }

  /** `is_nice_2`: a pair occurring twice without overlap, and a letter repeated with one
      letter in between. Like `pairs`, it needs a non-empty line. */
  method IsNice2(line: string) returns (nice: bool)
    requires |line| >= 1
    ensures nice <==> RepeatedPair(line) && ContainsRepeating(line, 2)
  {
    var paired := Pairs(line);
    nice := paired && ContainsRepeating(line, 2);
  }

  /** The unit tests of `contains_n_vowels`. */
  lemma VowelExamples()
    ensures ContainsNVowels("aeiou", 3) && !ContainsNVowels("bcdfg", 3)
    ensures ContainsNVowels("ugknbfddgicrmopn", 3)
  {
    SampleVowels();
  }

  /** "ugknbfddgicrmopn" has the vowels u, i and o. */
  lemma SampleVowels()
    ensures ContainsNVowels("ugknbfddgicrmopn", 3)
  {
    var s := "ugknbfddgicrmopn";
    assert VowelsFrom(s, 12) == 1;
    assert VowelsFrom(s, 8) == 2;
    assert VowelsFrom(s, 4) == 2;
  }

  /** A pair whose two characters never stand side by side does not occur. */
  lemma PairAbsent(s: string, w: string)
    requires |w| == 2 && forall j :: 0 <= j < |s| - 1 ==> s[j] != w[0] || s[j + 1] != w[1]
    ensures !Contains(s, w)
  {
    ContainsMeans(s, w);
    if exists j: nat :: OccursAt(s, w, j) {
      var j: nat :| OccursAt(s, w, j);
      assert s[j..j + 2][0] == w[0] && s[j..j + 2][1] == w[1];
    }
  }

  /** The unit tests of `blocklisted`. */
  lemma BlocklistExamples()
    ensures Blocklisted("abcdefg") && !Blocklisted("asdf") && !Blocklisted("ugknbfddgicrmopn")
  {
    LeadingAb("abcdefg");
    ShortClean("asdf");
    SampleClean();
  }

  /** "abcdefg" starts with "ab". */
  lemma LeadingAb(s: string)
    requires s == "abcdefg"
    ensures Blocklisted(s)
  {
    assert PairAt(s, 0) == "ab";
  }

  /** "asdf" has the pairs "as", "sd" and "df" only. */
  lemma ShortClean(s: string)
    requires s == "asdf"
    ensures !Blocklisted(s)
  {
    forall i: nat | i + 2 <= |s| ensures !IsBlocklistedPair(PairAt(s, i)) {
      assert PairAt(s, i) == [s[i], s[i + 1]];
    }
  }

  /** The sample line contains none of the four pairs. */
  lemma SampleLacksPairs(s: string)
    requires s == "ugknbfddgicrmopn"
    ensures !Contains(s, "ab") && !Contains(s, "cd") && !Contains(s, "pq") && !Contains(s, "xy")
  {
    PairAbsent(s, "ab");
    PairAbsent(s, "cd");
    PairAbsent(s, "pq");
    PairAbsent(s, "xy");
  }

  /** The unit tests of `contains_repeating`. */
  lemma RepeatExamples()
    ensures !ContainsRepeating("abcdefg", 1) && ContainsRepeating("abbb", 1)
    ensures ContainsRepeating("ugknbfddgicrmopn", 1) && ContainsRepeating("abcdefeghi", 2)
  {
  }

  /** The unit tests of `is_nice_1`. */
  lemma Nice1Examples()
    ensures IsNice1("ugknbfddgicrmopn") && IsNice1("aaa")
    ensures !IsNice1("jchzalrnumimnmhp") && !IsNice1("haegwjzuvuyypxyu")
    ensures !IsNice1("dvszwmarrgswjxmb")
  {
    NiceExample();
    NoDoubleExample();
    BlockedExample();
    OneVowelExample();
  }

  lemma NiceExample()
    ensures IsNice1("ugknbfddgicrmopn") && IsNice1("aaa")
  {
    SampleNice();
    TripleNice();
  }

  /** "aaa" has three vowels and a doubled letter. */
  lemma TripleNice()
    ensures IsNice1("aaa")
  {
    assert ContainsNVowels("aaa", 3);
  }

  /** "ugknbfddgicrmopn" has three vowels, no blocklisted pair and the doubled "dd". */
  lemma SampleNice()
    ensures IsNice1("ugknbfddgicrmopn")
  {
    SampleVowels();
    SampleClean();
    RepeatExamples();
  }

  /** "ugknbfddgicrmopn" holds none of the blocklisted pairs. */
  lemma SampleClean()
    ensures !Blocklisted("ugknbfddgicrmopn")
  {
    SampleLacksPairs("ugknbfddgicrmopn");
  }

  /** "haegwjzuvuyypxyu" contains "xy". */
  lemma BlockedExample()
    ensures !IsNice1("haegwjzuvuyypxyu")
  {
    HasXy("haegwjzuvuyypxyu");
  }

  lemma HasXy(s: string)
    requires s == "haegwjzuvuyypxyu"
    ensures Blocklisted(s)
  {
    assert PairAt(s, 13) == "xy";
  }

  /** "dvszwmarrgswjxmb" has one vowel only. */
  lemma OneVowelExample()
    ensures !IsNice1("dvszwmarrgswjxmb")
  {
    OneVowel("dvszwmarrgswjxmb");
  }

  lemma OneVowel(s: string)
    requires s == "dvszwmarrgswjxmb"
    ensures CountVowels(s) == 1
  {
    assert |s| == 16;
    assert VowelsFrom(s, 14) == 0;
    assert VowelsFrom(s, 12) == 0;
    assert VowelsFrom(s, 10) == 0;
    assert VowelsFrom(s, 8) == 0;
    assert VowelsFrom(s, 6) == 1;
    assert VowelsFrom(s, 4) == 1;
    assert VowelsFrom(s, 2) == 1;
    assert VowelsFrom(s, 0) == 1;
  }

  /** "jchzalrnumimnmhp" has no doubled letter. */
  lemma NoDoubleExample()
    ensures !ContainsRepeating("jchzalrnumimnmhp", 1) && !IsNice1("jchzalrnumimnmhp")
  {
    assert !RepeatsFrom("jchzalrnumimnmhp", 1, 12);
    assert !RepeatsFrom("jchzalrnumimnmhp", 1, 8);
    assert !RepeatsFrom("jchzalrnumimnmhp", 1, 4);
  }

  /** The unit tests of `pairs`. */
  method PairsExamples()
  {
    var twice := Pairs("aabcdefgaa");
    assert PairAt("aabcdefgaa", 0) == PairAt("aabcdefgaa", 8);
    assert twice;
    var overlapping := Pairs("aaa");
    assert !overlapping;
  }

  /** The unit tests of `is_nice_2` whose pairs the tests show. */
  method Nice2Examples()
  {
    var first := IsNice2("qjhvhtzxzqqjkmpb");
    assert PairAt("qjhvhtzxzqqjkmpb", 0) == PairAt("qjhvhtzxzqqjkmpb", 10);
    assert "qjhvhtzxzqqjkmpb"[6] == "qjhvhtzxzqqjkmpb"[8];
    assert first;
    var second := IsNice2("xxyxx");
    assert PairAt("xxyxx", 0) == PairAt("xxyxx", 3);
    assert ContainsRepeating("xxyxx", 2);
    assert second;
    var third := IsNice2("uurcxstgmygtbstg");
    NoSpacedRepeat("uurcxstgmygtbstg");
    assert !third;
  }

  /** "uurcxstgmygtbstg" has no letter repeated with one letter in between. */
  lemma NoSpacedRepeat(s: string)
    requires s == "uurcxstgmygtbstg"
    ensures !ContainsRepeating(s, 2)
  {
    assert |s| == 16;
    assert !RepeatsFrom(s, 2, 14);
    assert !RepeatsFrom(s, 2, 12);
    assert !RepeatsFrom(s, 2, 10);
    assert !RepeatsFrom(s, 2, 8);
    assert !RepeatsFrom(s, 2, 6);
    assert !RepeatsFrom(s, 2, 4);
    assert !RepeatsFrom(s, 2, 2);
    assert !RepeatsFrom(s, 2, 0);
  }
}
