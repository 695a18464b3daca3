/** The customs declarations (src/bin/2020-06.rs): each group of people is a run of
    non-blank lines, each line the questions one person answered yes to. The first count is
    the questions anyone in a group answered, the second those everyone answered. */
module Customs {
  import opened Text

  /** One person's answers: the questions they answered yes to. */
  type Answers = set<char>

  type Group = seq<Answers>

  /** `HashSet::from_iter(line.chars())`: the characters of one line. */
  function AnswerSet(line: string): (r: Answers)
    ensures forall c :: c in r <==> c in line
  {
    set i | 0 <= i < |line| :: line[i]
  }

  /** A line that trims to nothing ends the current group. */
  predicate Blank(line: string)
  {
    Trim(line) == ""
  }

  /** A line is blank exactly when all its characters are whitespace. */
  lemma BlankMeans(line: string)
    ensures Blank(line) <==> forall i :: 0 <= i < |line| ==> IsWhitespace(line[i])
  {
  }

  // Parsing

  /** The groups finished and the group being filled after the first `n` lines. */
  function Scan(lines: seq<string>, n: nat): (seq<Group>, Group)
    requires n <= |lines|
  {
    if n == 0 then ([], [])
    else
      var (done, current) := (Scan(lines, n - 1).0, Scan(lines, n - 1).1);
      if Blank(lines[n - 1]) then (done + [current], []) else (done, current + [AnswerSet(lines[n - 1])])
  }

  lemma ScanNext(lines: seq<string>, n: nat)
    requires 0 < n <= |lines|
    ensures !Blank(lines[n - 1]) ==> Scan(lines, n) == (Scan(lines, n - 1).0, Scan(lines, n - 1).1 + [AnswerSet(lines[n - 1])])
    ensures Blank(lines[n - 1]) ==> Scan(lines, n) == (Scan(lines, n - 1).0 + [Scan(lines, n - 1).1], [])
  {
  }

  /** The groups of a sequence of lines: those finished by blank lines, then the last. */
  function Groups(lines: seq<string>): seq<Group>
  {
    var (done, current) := Scan(lines, |lines|);
    done + [current]
  }

  /** `parse_groups`: over the lines, a blank one pushes the group being filled and starts an
      empty one, any other adds the set of its characters as one more person. */
  method ParseGroups(input: string) returns (groups: seq<Group>)
    ensures groups == Groups(Lines(input))
  {
    var lines := Lines(input);
    groups := [];
    var group: Group := [];
    for i := 0 to |lines|
      invariant Scan(lines, i) == (groups, group)
    {
      var line := lines[i];
      if Trim(line) == "" {
        groups := groups + [group];
        group := [];
        continue;
      }
      group := group + [AnswerSet(line)];
    }
    groups := groups + [group];
  }

  /** The blank lines among the first `n`. */
  function BlankCount(lines: seq<string>, n: nat): (b: nat)
    requires n <= |lines|
    ensures b <= n
  {
    if n == 0 then 0 else BlankCount(lines, n - 1) + (if Blank(lines[n - 1]) then 1 else 0)
  }

  /** The answers of every non-blank line among the first `n`, in order. */
  function People(lines: seq<string>, n: nat): (p: seq<Answers>)
    requires n <= |lines|
    ensures |p| == n - BlankCount(lines, n)
  {
    if n == 0 then []
    else People(lines, n - 1) + (if Blank(lines[n - 1]) then [] else [AnswerSet(lines[n - 1])])
  }

  /** The people of all groups, group after group. */
  function Flatten(groups: seq<Group>): seq<Answers>
  {
    if groups == [] then [] else Flatten(groups[..|groups| - 1]) + groups[|groups| - 1]
  }

  lemma FlattenSnoc(groups: seq<Group>, group: Group)
    ensures Flatten(groups + [group]) == Flatten(groups) + group
  {
    assert (groups + [group])[..|groups|] == groups;
  }

  /** The scan finishes one group per blank line, and its groups followed by the group being
      filled hold every non-blank line's answers in order. */
  lemma {:induction false} ScanFacts(lines: seq<string>, n: nat)
    requires n <= |lines|
    ensures |Scan(lines, n).0| == BlankCount(lines, n)
    ensures Flatten(Scan(lines, n).0) + Scan(lines, n).1 == People(lines, n)
  {
    if n > 0 {
      ScanFacts(lines, n - 1);
      var (done, current) := Scan(lines, n - 1);
      if Blank(lines[n - 1]) {
        FlattenSnoc(done, current);
      }
    }
  }

  /** `parse_groups` yields one group per blank line plus the last one, and taken together
      the groups are exactly the non-blank lines, in order. */
  lemma GroupsFacts(lines: seq<string>)
    ensures |Groups(lines)| == BlankCount(lines, |lines|) + 1
    ensures Flatten(Groups(lines)) == People(lines, |lines|)
  {
    ScanFacts(lines, |lines|);
    var (done, current) := Scan(lines, |lines|);
    FlattenSnoc(done, current);
  }

  /** Scanning further only adds groups after those already finished. */
  lemma {:induction false} ScanExtends(lines: seq<string>, n: nat, m: nat)
    requires n <= m <= |lines|
    ensures Scan(lines, n).0 <= Scan(lines, m).0
    decreases m - n
  {
    if n < m {
      ScanExtends(lines, n, m - 1);
    }
  }

  /** Two blank lines in a row give an empty group. */
  lemma DoubleBlankEmptyGroup(lines: seq<string>, i: nat)
    requires i + 1 < |lines| && Blank(lines[i]) && Blank(lines[i + 1])
    ensures exists k :: 0 <= k < |Groups(lines)| && Groups(lines)[k] == []
  {
    var done := Scan(lines, i + 2).0;
    assert Scan(lines, i + 1).1 == [];
    assert done[|done| - 1] == [];
    ScanExtends(lines, i + 2, |lines|);
    assert Groups(lines)[|done| - 1] == [];
  }

  // Counting

  /** Every question someone in the group answered yes to. */
  function Union(group: Group): set<char>
  {
    set j, c | 0 <= j < |group| && c in group[j] :: c
  }

  /** The questions everyone in the group answered yes to; there are none in an empty group. */
  function Common(group: Group): set<char>
  {
    set c | c in Union(group) && forall j :: 0 <= j < |group| ==> c in group[j]
  }

  lemma UnionSnoc(group: Group, i: nat)
    requires i < |group|
    ensures Union(group[..i + 1]) == Union(group[..i]) + group[i]
  {
    var (front, longer) := (group[..i], group[..i + 1]);
    forall c | c in Union(longer) ensures c in Union(front) + group[i] {
      var j :| 0 <= j < i + 1 && c in longer[j];
      if j < i {
        assert c in front[j];
      }
    }
    forall c | c in Union(front) + group[i] ensures c in Union(longer) {
      if c in group[i] {
        assert c in longer[i];
      } else {
        var j :| 0 <= j < i && c in front[j];
        assert c in longer[j];
      }
    }
  }

  /** `unique_questions`: insert every answer of every person into one set and count it. */
  method UniqueQuestions(answers: Group) returns (n: nat)
    ensures n == |Union(answers)|
  {
    var questions: set<char> := {};
    for i := 0 to |answers|
      invariant questions == Union(answers[..i])
    {
      var rest := answers[i];
      while rest != {}
        invariant rest <= answers[i]
        invariant questions == Union(answers[..i]) + (answers[i] - rest)
        decreases |rest|
      {
        var q :| q in rest;
        questions := questions + {q};
        rest := rest - {q};
      }
      UnionSnoc(answers, i);
    }
    assert answers[..|answers|] == answers;
    n := |questions|;
  }

  /** How many of the first `n` people answered `q`. */
  function Holders(group: Group, n: nat, q: char): (h: nat)
    requires n <= |group|
    ensures h <= n
  {
    if n == 0 then 0 else Holders(group, n - 1, q) + (if q in group[n - 1] then 1 else 0)
  }

  /** All of the first `n` people answered `q` exactly when `n` of them did. */
  lemma {:induction false} HoldersAll(group: Group, n: nat, q: char)
    requires n <= |group|
    ensures Holders(group, n, q) == n <==> forall j :: 0 <= j < n ==> q in group[j]
  {
    if n > 0 {
      HoldersAll(group, n - 1, q);
    }
  }

  /** Nobody among the first `n` answered a question outside their union. */
  lemma {:induction false} HoldersNone(group: Group, n: nat, q: char)
    requires n <= |group| && q !in Union(group[..n])
    ensures Holders(group, n, q) == 0
  {
    if n > 0 {
      UnionSnoc(group, n - 1);
      HoldersNone(group, n - 1, q);
    }
  }

  /** The count of `q`, zero when it has none yet. */
  function Base(counts: map<char, nat>, q: char): nat
  {
    if q in counts then counts[q] else 0
  }

  /** `r` is `counts` with one more count for every question of `done`. */
  predicate Raised(r: map<char, nat>, counts: map<char, nat>, done: set<char>)
  {
    r.Keys == counts.Keys + done && forall q :: q in r ==> r[q] == Base(counts, q) + (if q in done then 1 else 0)
  }

  lemma RaiseOne(r: map<char, nat>, counts: map<char, nat>, person: Answers, rest: set<char>, q: char)
    requires rest <= person && q in rest && Raised(r, counts, person - rest)
    ensures Raised(r[q := Base(r, q) + 1], counts, person - (rest - {q}))
  {
    assert person - (rest - {q}) == (person - rest) + {q};
  }

  lemma RaisedAll(r: map<char, nat>, counts: map<char, nat>, person: Answers)
    requires Raised(r, counts, person - {})
    ensures Raised(r, counts, person)
  {
    assert person - {} == person;
  }

  /** The inner loop of `all_answered`: one more count for every answer of one person. */
  method TallyPerson(counts: map<char, nat>, person: Answers) returns (r: map<char, nat>)
    ensures Raised(r, counts, person)
  {
    r := counts;
    var rest := person;
    assert person - person == {};
    while rest != {}
      invariant rest <= person
      invariant Raised(r, counts, person - rest)
      decreases |rest|
    {
      var q :| q in rest;
      RaiseOne(r, counts, person, rest, q);
      r := r[q := Base(r, q) + 1];
      rest := rest - {q};
    }
    RaisedAll(r, counts, person);
  }

  /** The counts of the first `n` people: one key per question anyone of them answered,
      holding how many of them did. */
  ghost predicate Tallied(group: Group, n: nat, counts: map<char, nat>)
    requires n <= |group|
  {
    counts.Keys == Union(group[..n]) && forall q :: q in counts ==> counts[q] == Holders(group, n, q)
  }

  lemma TallyNext(group: Group, i: nat, counts: map<char, nat>, r: map<char, nat>)
    requires i < |group| && Tallied(group, i, counts) && Raised(r, counts, group[i])
    ensures Tallied(group, i + 1, r)
  {
    UnionSnoc(group, i);
    forall q | q in r && q !in counts ensures Holders(group, i, q) == 0 {
      HoldersNone(group, i, q);
    }
  }

  /** Once everyone is counted, the questions counted once per person are the common ones. */
  lemma TalliedCommon(group: Group, counts: map<char, nat>)
    requires Tallied(group, |group|, counts)
    ensures (set q | q in counts && counts[q] == |group|) == Common(group)
  {
    assert group[..|group|] == group;
    forall q ensures q in counts && counts[q] == |group| <==> q in Common(group) {
      HoldersAll(group, |group|, q);
    }
  }

  /** `all_answered`: count, for every question, the people who answered it, then count the
      questions every person of the group answered. */
  method AllAnswered(answers: Group) returns (n: nat)
    ensures n == |Common(answers)|
  {
    var counts: map<char, nat> := map[];
    for i := 0 to |answers|
      invariant Tallied(answers, i, counts)
    {
      var next := TallyPerson(counts, answers[i]);
      TallyNext(answers, i, counts, next);
      counts := next;
    }
    TalliedCommon(answers, counts);
    var full := set q | q in counts && counts[q] == |answers|;
    n := |full|;
  }

  /** The questions everyone answered are among those anyone answered, so the second count
      never exceeds the first; a group of nobody has neither. */
  lemma CommonWithinUnion(group: Group)
    ensures Common(group) <= Union(group)
    ensures |Common(group)| <= |Union(group)|
    ensures group == [] ==> Union(group) == {} && Common(group) == {}
  {
    var rest := Union(group) - Common(group);
    assert Union(group) == Common(group) + rest;
  }

  /** In a group of at least one person, a question is common exactly when every person
      answered it: the count is the size of the intersection of their sets. */
  lemma CommonOfPeople(group: Group, c: char)
    requires |group| >= 1
    ensures c in Common(group) <==> forall j :: 0 <= j < |group| ==> c in group[j]
  {
    if forall j :: 0 <= j < |group| ==> c in group[j] {
      assert c in group[0];
    }
  }

  /** Everyone's answers lie between the common questions and the union. */
  lemma PersonBetween(group: Group, j: nat)
    requires j < |group|
    ensures Common(group) <= group[j] <= Union(group)
  {
    forall c | c in group[j] ensures c in Union(group) {
    }
  }

  // The unit tests

  /** The lines of the unit tests' input "abc\n\na\nb\nc\n\nab\nac". */
  function SampleLines(): seq<string>
  {
    ["abc", "", "a", "b", "c", "", "ab", "ac"]
  }

  lemma SampleText(lines: seq<string>)
    requires lines == SampleLines()
    ensures Lines(Join(lines, '\n')) == lines
  {
    LinesJoin(lines);
  }

  lemma NotBlank(line: string)
    requires line != [] && !IsWhitespace(line[0])
    ensures !Blank(line)
  {
    BlankMeans(line);
  }

  lemma SampleAnswerSets()
    ensures AnswerSet("abc") == {'a', 'b', 'c'}
    ensures AnswerSet("a") == {'a'} && AnswerSet("b") == {'b'} && AnswerSet("c") == {'c'}
    ensures AnswerSet("ab") == {'a', 'b'} && AnswerSet("ac") == {'a', 'c'}
  {
  }

  /** A non-blank line adds one person to the group being filled. */
  lemma ScanAdds(lines: seq<string>, n: nat, person: Answers)
    requires 0 < n <= |lines| && !Blank(lines[n - 1]) && AnswerSet(lines[n - 1]) == person
    ensures Scan(lines, n).0 == Scan(lines, n - 1).0 && Scan(lines, n).1 == Scan(lines, n - 1).1 + [person]
  {
    ScanNext(lines, n);
  }

  /** A blank line finishes the group being filled. */
  lemma ScanEnds(lines: seq<string>, n: nat)
    requires 0 < n <= |lines| && Blank(lines[n - 1])
    ensures Scan(lines, n).0 == Scan(lines, n - 1).0 + [Scan(lines, n - 1).1] && Scan(lines, n).1 == []
  {
    ScanNext(lines, n);
  }

  /** The first group of the sample and the second one being filled, after five lines. */
  lemma SampleFirstLines(lines: seq<string>)
    requires lines == SampleLines()
    ensures Scan(lines, 5).0 == [[{'a', 'b', 'c'}]] && Scan(lines, 5).1 == [{'a'}, {'b'}, {'c'}]
  {
    SampleAnswerSets();
    NotBlank(lines[0]);
    ScanAdds(lines, 1, {'a', 'b', 'c'});
    assert Scan(lines, 1).1 == [{'a', 'b', 'c'}];
    BlankMeans(lines[1]);
    ScanEnds(lines, 2);
    NotBlank(lines[2]);
    ScanAdds(lines, 3, {'a'});
    assert Scan(lines, 3).1 == [{'a'}];
    NotBlank(lines[3]);
    ScanAdds(lines, 4, {'b'});
    assert Scan(lines, 4).1 == [{'a'}, {'b'}];
    NotBlank(lines[4]);
    ScanAdds(lines, 5, {'c'});
    assert Scan(lines, 5).1 == [{'a'}, {'b'}, {'c'}];
  }

  /** The three groups of the sample. */
  lemma SampleGroups(lines: seq<string>)
    requires lines == SampleLines()
    ensures Groups(lines) == [[{'a', 'b', 'c'}], [{'a'}, {'b'}, {'c'}], [{'a', 'b'}, {'a', 'c'}]]
  {
    SampleFirstLines(lines);
    SampleAnswerSets();
    BlankMeans(lines[5]);
    ScanEnds(lines, 6);
    assert Scan(lines, 6).0 == [[{'a', 'b', 'c'}], [{'a'}, {'b'}, {'c'}]];
    NotBlank(lines[6]);
    ScanAdds(lines, 7, {'a', 'b'});
    assert Scan(lines, 7).1 == [{'a', 'b'}];
    NotBlank(lines[7]);
    ScanAdds(lines, 8, {'a', 'c'});
    assert Scan(lines, 8).1 == [{'a', 'b'}, {'a', 'c'}];
  }

  /** The unit test of `parse_groups`: three groups, of one and three people, the first
      answering a, b and c. */
  method ParseExample()
  {
    var lines := SampleLines();
    SampleText(lines);
    var groups := ParseGroups(Join(lines, '\n'));
    SampleGroups(lines);
    assert |groups| == 3 && |groups[0]| == 1 && |groups[1]| == 3;
    assert groups[0][0] == {'a', 'b', 'c'};
  }

  lemma Three(a: char, b: char, c: char)
    requires a != b && b != c && a != c
    ensures |{a, b, c}| == 3
  {
    assert {a, b, c} == {a, b} + {c};
  }

  /** The unit tests of `unique_questions` and `all_answered` on the sample's groups. */
  method CountExamples()
  {
    var first: Group := [{'a', 'b', 'c'}];
    var second: Group := [{'a'}, {'b'}, {'c'}];
    var third: Group := [{'a', 'b'}, {'a', 'c'}];
    var unique := UniqueQuestions(third);
    assert Union(third) == {'a', 'b', 'c'} by {
      PersonBetween(third, 0);
      PersonBetween(third, 1);
    }
    Three('a', 'b', 'c');
    assert unique == 3;
    var all := AllAnswered(first);
    assert Common(first) == {'a', 'b', 'c'} by {
      PersonBetween(first, 0);
    }
    assert all == 3;
    all := AllAnswered(second);
    assert Common(second) == {} by {
      PersonBetween(second, 0);
      PersonBetween(second, 1);
    }
    assert all == 0;
    all := AllAnswered(third);
    assert Common(third) == {'a'} by {
      PersonBetween(third, 0);
      PersonBetween(third, 1);
      assert 'a' in third[0] && 'a' in third[1];
    }
    assert all == 1;
  }
}
