/** The passport scanner (src/bin/2020-04.rs): passports are blocks of `key:value` fields
    separated by spaces and newlines, one block per run of non-blank lines. A passport is a
    map from keys to values; where the source panics because a field has no ':', the parse
    here is `None`. */
module Passports {
  import opened Wrappers
  import opened Text
  import opened Numbers

  type Passport = map<string, string>

  /** `REQUIRED_FIELDS`. */
  const RequiredFields: set<string> := {"byr", "iyr", "eyr", "hgt", "hcl", "ecl", "pid", "cid"}

  /** `EYE_COLORS`. */
  const EyeColors: set<string> := {"amb", "blu", "brn", "gry", "grn", "hzl", "oth"}

  /** `validate_number`. */
  predicate ValidateNumber(number: nat, minimum: nat, maximum: nat)
  {
    number >= minimum && number <= maximum
  }

  /** Both bounds belong to the range, and the numbers just outside do not. */
  lemma ValidateNumberInclusive(minimum: nat, maximum: nat)
    requires minimum <= maximum
    ensures ValidateNumber(minimum, minimum, maximum) && ValidateNumber(maximum, minimum, maximum)
    ensures !ValidateNumber(maximum + 1, minimum, maximum)
    ensures minimum > 0 ==> !ValidateNumber(minimum - 1, minimum, maximum)
    ensures forall n: nat :: ValidateNumber(n, minimum, maximum) <==> minimum <= n <= maximum
  {
  }

  // Parsing

  /** One field of a line inserted into the passport: an empty field (two spaces in a row)
      is skipped, and otherwise the text before the first ':' is the key and the text up to
      the next ':' the value. A repeated key replaces the earlier value. */
  function InsertField(passport: Passport, field: string): (r: Option<Passport>)
    ensures r.None? <==> field != "" && ':' !in field
  {
    SplitSeveral(field, ':');
    if field == "" then Some(passport)
    else
      var parts := Split(field, ':');
      if |parts| < 2 then None else Some(passport[parts[0] := parts[1]])
  }

  /** The first `n` fields inserted in order. */
  function InsertFields(passport: Passport, fields: seq<string>, n: nat): Option<Passport>
    requires n <= |fields|
  {
    if n == 0 then Some(passport)
    else
      match InsertFields(passport, fields, n - 1)
      case None => None
      case Some(p) => InsertField(p, fields[n - 1])
  }

  /** The key a non-empty field with a ':' sets. */
  function KeyOf(field: string): string
  {
    Split(field, ':')[0]
  }

  /** The value a field with a ':' gives its key. */
  function ValueOf(field: string): string
    requires ':' in field
  {
    SplitSeveral(field, ':');
    Split(field, ':')[1]
  }

  /** Field `j` of the first `n` sets `key`. */
  predicate SetsKey(fields: seq<string>, n: nat, j: nat, key: string)
    requires n <= |fields|
  {
    j < n && fields[j] != "" && KeyOf(fields[j]) == key
  }

  /** Each of the first `n` fields is empty or holds a ':'. */
  predicate FieldsOk(fields: seq<string>, n: nat)
    requires n <= |fields|
  {
    n == 0 || (FieldsOk(fields, n - 1) && (fields[n - 1] == "" || ':' in fields[n - 1]))
  }

  /** The fields are fine exactly when none is a non-empty field without a ':'. */
  lemma {:induction false} FieldsOkMeans(fields: seq<string>, n: nat)
    requires n <= |fields|
    ensures FieldsOk(fields, n) <==> forall j :: 0 <= j < n ==> fields[j] == "" || ':' in fields[j]
  {
    if n > 0 {
      FieldsOkMeans(fields, n - 1);
    }
  }

  /** The insertion succeeds exactly when the fields are fine. */
  lemma {:induction false} InsertFieldsNone(passport: Passport, fields: seq<string>, n: nat)
    requires n <= |fields|
    ensures InsertFields(passport, fields, n).Some? <==> FieldsOk(fields, n)
  {
    if n > 0 {
      InsertFieldsNone(passport, fields, n - 1);
    }
  }

  /** After inserting the fields, a key is present exactly when it was before or some field
      sets it. */
  lemma {:induction false} InsertFieldsKeys(passport: Passport, fields: seq<string>, n: nat, key: string)
    requires n <= |fields| && InsertFields(passport, fields, n).Some?
    ensures key in InsertFields(passport, fields, n).value <==>
      key in passport || exists j: nat :: SetsKey(fields, n, j, key)
  {
    if n > 0 {
      var m := n - 1;
      InsertFieldsKeys(passport, fields, m, key);
      InsertFieldKey(InsertFields(passport, fields, m).value, fields[m], key);
      SetsKeyStep(fields, m, n, key);
    }
  }

  /** Inserting one field adds its key, if it has one, and keeps every other key. */
  lemma InsertFieldKey(passport: Passport, field: string, key: string)
    requires InsertField(passport, field).Some?
    ensures key in InsertField(passport, field).value <==> key in passport || (field != "" && KeyOf(field) == key)
  {
    SplitSeveral(field, ':');
  }

  /** Some of the first `n` fields sets a key exactly when one of the first `n - 1` does or
      field `n - 1` does. */
  lemma SetsKeyStep(fields: seq<string>, m: nat, n: nat, key: string)
    requires n == m + 1 <= |fields|
    ensures (exists j: nat :: SetsKey(fields, n, j, key))
      <==> (exists j: nat :: SetsKey(fields, m, j, key)) || SetsKey(fields, n, m, key)
  {
    if exists j: nat :: SetsKey(fields, n, j, key) {
      var j: nat :| SetsKey(fields, n, j, key);
      if j < m {
        assert SetsKey(fields, m, j, key);
      }
    }
    if exists j: nat :: SetsKey(fields, m, j, key) {
      var j: nat :| SetsKey(fields, m, j, key);
      assert SetsKey(fields, n, j, key);
    }
  }

  /** After inserting the fields, the value of a key is the one the last field setting it
      gives it. */
  lemma {:induction false} InsertFieldsLastWins(passport: Passport, fields: seq<string>, n: nat, j: nat)
    requires n <= |fields| && InsertFields(passport, fields, n).Some?
    requires j < n && fields[j] != ""
    requires forall j': nat :: j < j' < n ==> !SetsKey(fields, n, j', KeyOf(fields[j]))
    ensures ':' in fields[j]
    ensures var q := InsertFields(passport, fields, n).value;
      KeyOf(fields[j]) in q && q[KeyOf(fields[j])] == ValueOf(fields[j])
  {
    var key := KeyOf(fields[j]);
    var field := fields[n - 1];
    if j == n - 1 {
      InsertFieldsNone(passport, fields, n);
      SplitSeveral(field, ':');
    } else {
      var m := n - 1;
      forall j': nat | j < j' < m ensures !SetsKey(fields, m, j', key) {
        assert !SetsKey(fields, n, j', key);
      }
      InsertFieldsLastWins(passport, fields, m, j);
      assert !SetsKey(fields, n, n - 1, key);
      if field != "" {
        SplitSeveral(field, ':');
      }
    }
  }

  /** What a line is once trimmed: blank, which ends the current passport, or the fields
      between its spaces. */
  datatype LineKind = BlankLine | FieldLine(fields: seq<string>)

  /** The kind of one line. */
  function Classify(line: string): (k: LineKind)
    ensures k.BlankLine? <==> forall i :: 0 <= i < |line| ==> IsWhitespace(line[i])
  {
    var trimmed := Trim(line);
    if trimmed == "" then BlankLine else FieldLine(Split(trimmed, ' '))
  }

  /** The kinds of all lines. */
  function Kinds(lines: seq<string>): (k: seq<LineKind>)
    ensures |k| == |lines| && forall i :: 0 <= i < |lines| ==> k[i] == Classify(lines[i])
  {
    seq(|lines|, i requires 0 <= i < |lines| => Classify(lines[i]))
  }

  /** One line read into the passports finished so far and the passport being filled. */
  function Step(done: seq<Passport>, current: Passport, kind: LineKind): Option<(seq<Passport>, Passport)>
  {
    match kind
    case BlankLine => Some((done + [current], map[]))
    case FieldLine(fields) =>
      match InsertFields(current, fields, |fields|)
      case None => None
      case Some(p) => Some((done, p))
  }

  /** The passports finished and the passport being filled after the first `n` lines. */
  function Scan(kinds: seq<LineKind>, n: nat): Option<(seq<Passport>, Passport)>
    requires n <= |kinds|
  {
    if n == 0 then Some(([], map[]))
    else
      match Scan(kinds, n - 1)
      case None => None
      case Some((done, current)) => Step(done, current, kinds[n - 1])
  }

  /** The passports of a sequence of lines: those finished by blank lines, then the last. */
  function ParseLines(lines: seq<string>): Option<seq<Passport>>
  {
    match Scan(Kinds(lines), |lines|)
    case None => None
    case Some((done, current)) => Some(done + [current])
  }

  /** The number of blank lines among the first `n`. */
  function Blanks(kinds: seq<LineKind>, n: nat): (b: nat)
    requires n <= |kinds|
    ensures b <= n
  {
    if n == 0 then 0 else Blanks(kinds, n - 1) + (if kinds[n - 1].BlankLine? then 1 else 0)
  }

  /** A blank line, or a line whose fields are all empty or carry a ':'. */
  predicate KindOk(kind: LineKind)
  {
    kind.BlankLine? || FieldsOk(kind.fields, |kind.fields|)
  }

  /** Each of the first `n` lines is well formed. */
  predicate KindsOk(kinds: seq<LineKind>, n: nat)
    requires n <= |kinds|
  {
    n == 0 || (KindsOk(kinds, n - 1) && KindOk(kinds[n - 1]))
  }

  lemma {:induction false} KindsOkMeans(kinds: seq<LineKind>, n: nat)
    requires n <= |kinds|
    ensures KindsOk(kinds, n) <==> forall i :: 0 <= i < n ==> KindOk(kinds[i])
  {
    if n > 0 {
      KindsOkMeans(kinds, n - 1);
    }
  }

  /** A line finishes a passport exactly when it is blank, and fails exactly when it is not
      well formed. */
  lemma StepFacts(done: seq<Passport>, current: Passport, kind: LineKind)
    ensures Step(done, current, kind).Some? <==> KindOk(kind)
    ensures Step(done, current, kind).Some? ==>
      |Step(done, current, kind).value.0| == |done| + (if kind.BlankLine? then 1 else 0)
  {
    if kind.FieldLine? {
      InsertFieldsNone(current, kind.fields, |kind.fields|);
    }
  }

  /** The scan fails exactly when a line is not well formed, and otherwise finishes one
      passport per blank line. */
  lemma {:induction false} ScanFacts(kinds: seq<LineKind>, n: nat)
    requires n <= |kinds|
    ensures Scan(kinds, n).Some? <==> KindsOk(kinds, n)
    ensures Scan(kinds, n).Some? ==> |Scan(kinds, n).value.0| == Blanks(kinds, n)
  {
    if n > 0 {
      ScanFacts(kinds, n - 1);
      if Scan(kinds, n - 1).Some? {
        var (done, current) := Scan(kinds, n - 1).value;
        StepFacts(done, current, kinds[n - 1]);
      }
    }
  }

  /** `parse_passports` yields one passport per blank line, plus the last one, and fails
      exactly when some line holds a non-empty field without a ':'. */
  lemma ParseCount(lines: seq<string>)
    ensures ParseLines(lines).Some? <==> forall i :: 0 <= i < |lines| ==> KindOk(Kinds(lines)[i])
    ensures ParseLines(lines).Some? ==> |ParseLines(lines).value| == Blanks(Kinds(lines), |lines|) + 1
  {
    ScanFacts(Kinds(lines), |lines|);
    KindsOkMeans(Kinds(lines), |lines|);
  }

  /** `parse_passports`: over the lines, trim each; a blank line pushes the passport being
      filled and starts an empty one; any other line inserts its space-separated fields. */
  method ParsePassports(input: string) returns (r: Option<seq<Passport>>)
    ensures r == ParseLines(Lines(input))
  {
    r := ReadPassports(Lines(input));
  }

  /** The scan of the first `n` lines, classifying each as it is reached. */
  function ScanLines(lines: seq<string>, n: nat): Option<(seq<Passport>, Passport)>
    requires n <= |lines|
  {
    if n == 0 then Some(([], map[]))
    else
      match ScanLines(lines, n - 1)
      case None => None
      case Some((done, current)) => Step(done, current, Classify(lines[n - 1]))
  }

  /** Classifying each line as it is reached is the scan of the kinds of all lines. */
  lemma {:induction false} ScanLinesKinds(lines: seq<string>, n: nat)
    requires n <= |lines|
    ensures ScanLines(lines, n) == Scan(Kinds(lines), n)
  {
    if n > 0 {
      ScanLinesKinds(lines, n - 1);
      var kinds := Kinds(lines);
      var kind := Classify(lines[n - 1]);
      assert kinds[n - 1] == kind;
      if ScanLines(lines, n - 1).Some? {
        var (done, current) := ScanLines(lines, n - 1).value;
        assert ScanLines(lines, n) == Step(done, current, kind);
        assert Scan(kinds, n) == Step(done, current, kind);
      }
    }
  }

  /** The loop of `parse_passports`, over the lines of the input. */
  method ReadPassports(lines: seq<string>) returns (r: Option<seq<Passport>>)
    ensures r == ParseLines(lines)
  {
    var passports: seq<Passport> := [];
    var passport: Passport := map[];
    for i := 0 to |lines|
      invariant ScanLines(lines, i) == Some((passports, passport))
    {
      var read := ReadLine(passports, passport, lines[i]);
      ScanLinesNext(lines, i, passports, passport);
      if read.None? {
        ScanLinesFails(lines, i + 1);
        return None;
      }
      passports, passport := read.value.0, read.value.1;
    }
    ScanLinesDone(lines, passports, passport);
    r := Some(passports + [passport]);
  }

  /** One more line read after a successful scan is one more step. */
  lemma ScanLinesNext(lines: seq<string>, i: nat, passports: seq<Passport>, passport: Passport)
    requires i < |lines| && ScanLines(lines, i) == Some((passports, passport))
    ensures ScanLines(lines, i + 1) == Step(passports, passport, Classify(lines[i]))
  {
  }

  /** A scan of every line that succeeds gives the passports it finished and the last one. */
  lemma ScanLinesDone(lines: seq<string>, passports: seq<Passport>, passport: Passport)
    requires ScanLines(lines, |lines|) == Some((passports, passport))
    ensures ParseLines(lines) == Some(passports + [passport])
  {
    ScanLinesKinds(lines, |lines|);
  }

  /** Once a line fails to read, so does the whole input. */
  lemma ScanLinesFails(lines: seq<string>, n: nat)
    requires n <= |lines| && ScanLines(lines, n).None?
    ensures ParseLines(lines).None?
  {
    ScanLinesKinds(lines, n);
    ScanStaysNone(Kinds(lines), n, |lines|);
  }

  /** The body of the loop of `parse_passports`, on one line. */
  method ReadLine(passports: seq<Passport>, passport: Passport, input: string)
    returns (r: Option<(seq<Passport>, Passport)>)
    ensures r == Step(passports, passport, Classify(input))
  {
    var line := Trim(input);
    if line == "" {
      return Some((passports + [passport], map[]));
    }
    var fields := Split(line, ' ');
    var inserted := InsertLine(passport, fields);
    if inserted.None? {
      return None;
    }
    return Some((passports, inserted.value));
  }

  /** The inner loop of `parse_passports`: the fields of one line inserted in order, where a
      non-empty field without a ':' is the panic of the source. */
  method InsertLine(passport: Passport, fields: seq<string>) returns (r: Option<Passport>)
    ensures r == InsertFields(passport, fields, |fields|)
  {
    var current := passport;
    for j := 0 to |fields|
      invariant InsertFields(passport, fields, j) == Some(current)
    {
      var field := fields[j];
      if field == "" {
        continue;
      }
      var parts := Split(field, ':');
      if |parts| < 2 {
        InsertFieldsStaysNone(passport, fields, j + 1, |fields|);
        return None;
      }
      current := current[parts[0] := parts[1]];
    }
    r := Some(current);
  }

  lemma {:induction false} ScanStaysNone(kinds: seq<LineKind>, i: nat, n: nat)
    requires i <= n <= |kinds| && Scan(kinds, i).None?
    ensures Scan(kinds, n).None?
    decreases n - i
  {
    if i < n {
      ScanStaysNone(kinds, i + 1, n);
    }
  }

  lemma {:induction false} InsertFieldsStaysNone(passport: Passport, fields: seq<string>, j: nat, n: nat)
    requires j <= n <= |fields| && InsertFields(passport, fields, j).None?
    ensures InsertFields(passport, fields, n).None?
    decreases n - j
  {
    if j < n {
      InsertFieldsStaysNone(passport, fields, j + 1, n);
    }
  }

  // Validation

  /** `validate_fields`: the keys, compared with the required fields both ways, differ in
      nothing but "cid". */
  function ValidateFields(passport: Passport): (r: bool)
    ensures r <==> ((forall k :: k in passport ==> k in RequiredFields)
                    && (forall k :: k in RequiredFields && k != "cid" ==> k in passport))
  {
    KeyDifference(passport);
    (passport.Keys - RequiredFields) + (RequiredFields - passport.Keys) - {"cid"} == {}
  }

  /** The two-way difference, "cid" aside, is empty exactly when every key is a required
      field and every required field but "cid" is present. */
  lemma KeyDifference(passport: Passport)
    ensures (passport.Keys - RequiredFields) + (RequiredFields - passport.Keys) - {"cid"} == {} <==>
      (forall k :: k in passport ==> k in RequiredFields) && (forall k :: k in RequiredFields && k != "cid" ==> k in passport)
  {
    if (passport.Keys - RequiredFields) + (RequiredFields - passport.Keys) - {"cid"} == {} {
      forall k | k in passport ensures k in RequiredFields {
        assert k !in (passport.Keys - RequiredFields) + (RequiredFields - passport.Keys) - {"cid"};
      }
      forall k | k in RequiredFields && k != "cid" ensures k in passport {
        assert k !in (passport.Keys - RequiredFields) + (RequiredFields - passport.Keys) - {"cid"};
      }
    }
  }

  /** Whether "cid" is there makes no difference to the fields' validity. */
  lemma ValidateFieldsMeans(passport: Passport, cid: string)
    ensures ValidateFields(passport) <==> ValidateFields(passport["cid" := cid])
    ensures ValidateFields(passport) <==> ValidateFields(passport - {"cid"})
  {
    var withCid := passport["cid" := cid];
    var withoutCid := passport - {"cid"};
    assert (withCid.Keys - RequiredFields) + (RequiredFields - withCid.Keys) - {"cid"}
      == (passport.Keys - RequiredFields) + (RequiredFields - passport.Keys) - {"cid"};
    assert (withoutCid.Keys - RequiredFields) + (RequiredFields - withoutCid.Keys) - {"cid"}
      == (passport.Keys - RequiredFields) + (RequiredFields - passport.Keys) - {"cid"};
  }

  /** `is_hex`, as written: any lowercase letter or digit. It accepts every hexadecimal
      digit, but never the '#' that starts a colour. */
  function IsHex(c: char): (r: bool)
    ensures IsHexDigit(c) ==> r
    ensures r ==> c != '#'
  {
    ('a' <= c <= 'z') || ('0' <= c <= '9')
  }

  /** The "hcl" rule as written: seven characters, the last six passing `is_hex`. */
  predicate ValidHairColor(value: string)
  {
    |value| == 7 && forall i :: 1 <= i < 7 ==> IsHex(value[i])
  }

  /** The check of one field's value; the source reaches `unreachable!` on a key outside
      the required fields, and slices off the last two characters of "hgt" unconditionally. */
  function ValidField(key: string, value: string): (r: bool)
    requires key in RequiredFields
    requires key == "hgt" ==> |value| >= 2
    ensures key == "cid" ==> r
    ensures key == "ecl" ==> (r <==> value in EyeColors)
    ensures (key == "byr" || key == "iyr" || key == "eyr") && r ==>
      ParseU32(value).Some? && 1920 <= ParseU32(value).value <= 2030
    ensures key == "hgt" && r ==> (value[|value| - 2] == 'c' && value[|value| - 1] == 'm')
                                   || (value[|value| - 2] == 'i' && value[|value| - 1] == 'n')
    ensures key == "hcl" && r ==> |value| == 7
    ensures key == "pid" && r ==> |value| == 9 && ParseU32(value).Some?
  {
    if key == "byr" then ParseU32(value).Some? && ValidateNumber(ParseU32(value).value, 1920, 2002)
    else if key == "iyr" then ParseU32(value).Some? && ValidateNumber(ParseU32(value).value, 2010, 2020)
    else if key == "eyr" then ParseU32(value).Some? && ValidateNumber(ParseU32(value).value, 2020, 2030)
    else if key == "hgt" then
      var number := ParseU32(value[..|value| - 2]);
      var units := value[|value| - 2..];
      number.Some? && (
        if units == "cm" then ValidateNumber(number.value, 150, 193)
        else if units == "in" then ValidateNumber(number.value, 59, 76)
        else false)
    else if key == "hcl" then ValidHairColor(value)
    else if key == "ecl" then value in EyeColors
    else if key == "pid" then |value| == 9 && ParseU32(value).Some?
    else true
  }

  /** "cid" is always valid; a nine-digit "pid" always is. */
  lemma ValidFieldFacts(value: string)
    ensures ValidField("cid", value)
    ensures |value| == 9 && AllDigits(value) ==> ValidField("pid", value)
  {
    if |value| == 9 && AllDigits(value) {
      NineDigitsParse(value);
    }
  }

  /** What `validate_contents` demands so that it cannot panic: every key is a required
      field and "hgt", if present, has at least two characters. */
  predicate Checkable(passport: Passport)
  {
    (forall k :: k in passport ==> k in RequiredFields) && ("hgt" in passport ==> |passport["hgt"]| >= 2)
  }

  /** Passports whose fields are valid have only required keys. */
  lemma ValidFieldsKnownKeys(passport: Passport)
    requires ValidateFields(passport)
    ensures forall k :: k in passport ==> k in RequiredFields
  {
    ValidateFieldsMeans(passport, "");
  }

  /** `validate_contents`: checks the fields one by one and stops at the first invalid one;
      the order of the map does not matter. */
  method ValidateContents(passport: Passport) returns (valid: bool)
    requires Checkable(passport)
    ensures valid <==> forall k :: k in passport ==> ValidField(k, passport[k])
  {
    var remaining := passport.Keys;
    while remaining != {}
      invariant remaining <= passport.Keys
      invariant forall k :: k in passport && k !in remaining ==> ValidField(k, passport[k])
      decreases |remaining|
    {
      var key :| key in remaining;
      if !ValidField(key, passport[key]) {
        return false;
      }
      remaining := remaining - {key};
    }
    return true;
  }

  // The intended hair-colour rule

  /** A hexadecimal digit as the puzzle defines it: 0-9 or a-f. */
  predicate IsHexDigit(c: char)
  {
    ('a' <= c <= 'f') || ('0' <= c <= '9')
  }

  /** The intended "hcl" rule: a '#' followed by exactly six hexadecimal digits. */
  predicate IntendedHairColor(value: string)
  {
    |value| == 7 && value[0] == '#' && forall i :: 1 <= i < 7 ==> IsHexDigit(value[i])
  }

  /** The intended rule accepts only values the as-written rule accepts, and every accepted
      value spells "#" and six characters out of the sixteen hexadecimal digits. */
  lemma IntendedHairColorMeans(value: string)
    ensures IntendedHairColor(value) ==> ValidHairColor(value)
    ensures IntendedHairColor(value) <==> (|value| == 7 && value[0] == '#'
      && forall i :: 1 <= i < 7 ==> value[i] in "0123456789abcdef")
  {
    if |value| == 7 {
      forall i | 1 <= i < 7 ensures IsHexDigit(value[i]) <==> value[i] in "0123456789abcdef" {
        var c := value[i];
        if IsHexDigit(c) {
          if 'a' <= c <= 'f' {
            assert c == "0123456789abcdef"[(c as int) - ('a' as int) + 10];
          } else {
            assert c == "0123456789abcdef"[(c as int) - ('0' as int)];
          }
        }
      }
    }
  }

  /** "zzzzzzz" passes the "hcl" check as written: 'z' passes `is_hex` and the first
      character is never checked to be '#'. The intended rule rejects it. */
  lemma HairColorAcceptsZ()
    ensures ValidHairColor("zzzzzzz")
    ensures !IntendedHairColor("zzzzzzz")
  {
  }

  // The unit tests

  /** The text of a field. */
  function FieldText(kv: (string, string)): string
  {
    kv.0 + ":" + kv.1
  }

  /** The texts of the first `n` fields. */
  function FieldTexts(kvs: seq<(string, string)>, n: nat): (r: seq<string>)
    requires n <= |kvs|
    ensures |r| == n
  {
    if n == 0 then [] else FieldTexts(kvs, n - 1) + [FieldText(kvs[n - 1])]
  }

  /** The first `n` keys and values put into the passport, in order. */
  function PutAll(passport: Passport, kvs: seq<(string, string)>, n: nat): Passport
    requires n <= |kvs|
  {
    if n == 0 then passport else PutAll(passport, kvs, n - 1)[kvs[n - 1].0 := kvs[n - 1].1]
  }

  /** A character of the keys and values written here: a digit, a lowercase letter or '#'. */
  predicate PlainChar(c: char)
  {
    ('0' <= c <= '9') || ('a' <= c <= 'z') || c == '#'
  }

  /** A key or value made of plain characters. */
  predicate Plain(s: string)
  {
    |s| > 0 && forall i :: 0 <= i < |s| ==> PlainChar(s[i])
  }

  /** A plain string has no ':' and no whitespace. */
  lemma PlainFacts(s: string)
    requires Plain(s)
    ensures ':' !in s && ' ' !in s && '\n' !in s
    ensures forall i :: 0 <= i < |s| ==> !IsWhitespace(s[i])
  {
    forall i | 0 <= i < |s| ensures s[i] != ':' && s[i] != ' ' && s[i] != '\n' && !IsWhitespace(s[i]) {
      assert PlainChar(s[i]);
    }
  }

  /** A line of fields written with single spaces trims to itself and splits into its
      fields. */
  lemma WrittenLine(kvs: seq<(string, string)>)
    requires |kvs| >= 1
    requires AllPlain(kvs)
    ensures Classify(LineOf(kvs)) == LineKindOf(kvs) && Unbroken(LineOf(kvs))
  {
    var fields := FieldTexts(kvs, |kvs|);
    FieldTextsFacts(map[], kvs, |kvs|);
    JoinLast(fields, ' ');
    assert fields[|fields| - 1] == FieldText(kvs[|kvs| - 1]);
    WrittenLineKind(kvs, fields);
    WrittenLineUnbroken(kvs, fields);
  }

  /** The line trims to itself and splits back into its field texts. */
  lemma WrittenLineKind(kvs: seq<(string, string)>, fields: seq<string>)
    requires |kvs| >= 1 && AllPlain(kvs) && fields == FieldTexts(kvs, |kvs|)
    requires forall j :: 0 <= j < |kvs| ==> fields[j] == FieldText(kvs[j])
    requires forall j :: 0 <= j < |kvs| ==> ' ' !in fields[j] && '\n' !in fields[j]
    requires Join(fields, ' ')[|Join(fields, ' ')| - 1] == fields[|fields| - 1][|fields[|fields| - 1]| - 1]
    ensures Classify(Join(fields, ' ')) == FieldLine(fields)
  {
    var line := Join(fields, ' ');
    JoinFirst(fields, ' ');
    PlainFacts(kvs[0].0);
    PlainFacts(kvs[|kvs| - 1].1);
    TrimKeeps(line);
    SplitJoin(fields, ' ');
  }

  /** The line holds no newline and ends in the last character of the last value. */
  lemma WrittenLineUnbroken(kvs: seq<(string, string)>, fields: seq<string>)
    requires |kvs| >= 1 && AllPlain(kvs) && |fields| == |kvs|
    requires forall j :: 0 <= j < |kvs| ==> '\n' !in fields[j]
    requires fields[|fields| - 1] == FieldText(kvs[|kvs| - 1])
    requires Join(fields, ' ')[|Join(fields, ' ')| - 1] == fields[|fields| - 1][|fields[|fields| - 1]| - 1]
    ensures Unbroken(Join(fields, ' '))
  {
    JoinExcludes(fields, ' ', '\n');
    var value := kvs[|kvs| - 1].1;
    PlainFacts(value);
    assert FieldText(kvs[|kvs| - 1])[|FieldText(kvs[|kvs| - 1])| - 1] == value[|value| - 1];
  }

  /** Field texts are free of spaces and newlines, and insert as their keys and values. */
  lemma FieldTextsFacts(passport: Passport, kvs: seq<(string, string)>, n: nat)
    requires n <= |kvs|
    requires AllPlain(kvs)
    ensures forall j :: 0 <= j < n ==> FieldTexts(kvs, n)[j] == FieldText(kvs[j])
    ensures forall j :: 0 <= j < n ==> ' ' !in FieldTexts(kvs, n)[j] && '\n' !in FieldTexts(kvs, n)[j]
    ensures InsertFields(passport, FieldTexts(kvs, n), n) == Some(PutAll(passport, kvs, n))
  {
    FieldTextsAt(kvs, n);
    forall j | 0 <= j < n ensures ' ' !in FieldTexts(kvs, n)[j] && '\n' !in FieldTexts(kvs, n)[j] {
      PlainFacts(kvs[j].0);
      PlainFacts(kvs[j].1);
      assert FieldText(kvs[j]) == kvs[j].0 + ":" + kvs[j].1;
    }
    FieldTextsInsert(passport, kvs, n);
  }

  /** The `j`-th field text is the text of the `j`-th key and value. */
  lemma {:induction false} FieldTextsAt(kvs: seq<(string, string)>, n: nat)
    requires n <= |kvs|
    ensures forall j :: 0 <= j < n ==> FieldTexts(kvs, n)[j] == FieldText(kvs[j])
  {
    if n > 0 {
      FieldTextsAt(kvs, n - 1);
    }
  }

  /** Inserting the field texts puts their keys and values, in order. */
  lemma {:induction false} FieldTextsInsert(passport: Passport, kvs: seq<(string, string)>, n: nat)
    requires n <= |kvs|
    requires AllPlain(kvs)
    ensures InsertFields(passport, FieldTexts(kvs, n), n) == Some(PutAll(passport, kvs, n))
  {
    if n > 0 {
      FieldTextsInsert(passport, kvs, n - 1);
      var fields := FieldTexts(kvs, n);
      assert fields[..n - 1] == FieldTexts(kvs, n - 1);
      InsertFieldsPrefix(passport, fields, FieldTexts(kvs, n - 1), n - 1);
      var kv := kvs[n - 1];
      var before := PutAll(passport, kvs, n - 1);
      assert InsertFields(passport, fields, n - 1) == Some(before);
      assert fields[n - 1] == FieldText(kv);
      assert Plain(kv.0) && Plain(kv.1);
      FieldTextSplits(kv);
      assert FieldText(kv) != "" by {
        assert |FieldText(kv)| == |kv.0| + 1 + |kv.1|;
      }
      assert InsertField(before, FieldText(kv)) == Some(before[kv.0 := kv.1]);
    }
  }

  /** Inserting a prefix of the fields only looks at that prefix. */
  lemma {:induction false} InsertFieldsPrefix(passport: Passport, fields: seq<string>, prefix: seq<string>, n: nat)
    requires n <= |prefix| <= |fields| && prefix == fields[..|prefix|]
    ensures InsertFields(passport, fields, n) == InsertFields(passport, prefix, n)
  {
    if n > 0 {
      InsertFieldsPrefix(passport, fields, prefix, n - 1);
      assert prefix[n - 1] == fields[n - 1];
    }
  }

  /** A field text splits at its ':' into its key and value. */
  lemma FieldTextSplits(kv: (string, string))
    requires Plain(kv.0) && Plain(kv.1)
    ensures Split(FieldText(kv), ':') == [kv.0, kv.1]
  {
    assert FieldText(kv) == kv.0 + [':'] + kv.1;
    PlainFacts(kv.0);
    PlainFacts(kv.1);
    SplitPrefix(kv.0, ':', kv.1);
    SplitNoSep(kv.1, ':');
  }

  /** The fields of the first passport of the sample input, line by line. */
  function Sample0(): seq<(string, string)>
  {
    [("ecl", "gry"), ("pid", "860033327"), ("eyr", "2020"), ("hcl", "#fffffd")]
  }

  function Sample1(): seq<(string, string)>
  {
    [("byr", "1937"), ("iyr", "2017"), ("cid", "147"), ("hgt", "183cm")]
  }

  function Sample2(): seq<(string, string)>
  {
    [("iyr", "2013"), ("ecl", "amb"), ("cid", "350"), ("eyr", "2023"), ("pid", "028048884")]
  }

  function Sample3(): seq<(string, string)>
  {
    [("hcl", "#cfa07d"), ("byr", "1929")]
  }

  function Sample4(): seq<(string, string)>
  {
    [("hcl", "#ae17e1"), ("iyr", "2013")]
  }

  function Sample5(): seq<(string, string)>
  {
    [("eyr", "2024")]
  }

  function Sample6(): seq<(string, string)>
  {
    [("ecl", "brn"), ("pid", "760753108"), ("byr", "1931")]
  }

  function Sample7(): seq<(string, string)>
  {
    [("hgt", "179cm")]
  }

  function Sample8(): seq<(string, string)>
  {
    [("hcl", "#cfa07d"), ("eyr", "2025"), ("pid", "166559648")]
  }

  function Sample9(): seq<(string, string)>
  {
    [("iyr", "2011"), ("ecl", "brn"), ("hgt", "59in")]
  }

  /** The line of fields written with single spaces. */
  function LineOf(kvs: seq<(string, string)>): string
    requires |kvs| >= 1
  {
    Join(FieldTexts(kvs, |kvs|), ' ')
  }

  /** Every key and value of the fields is plain. */
  predicate AllPlain(kvs: seq<(string, string)>)
  {
    forall i :: 0 <= i < |kvs| ==> Plain(kvs[i].0) && Plain(kvs[i].1)
  }

  /** The kind of a written line. */
  function LineKindOf(kvs: seq<(string, string)>): LineKind
  {
    FieldLine(FieldTexts(kvs, |kvs|))
  }

  /** Reading a line of fields puts its keys and values. */
  lemma LineStep(done: seq<Passport>, current: Passport, kvs: seq<(string, string)>)
    requires AllPlain(kvs)
    ensures Step(done, current, LineKindOf(kvs)) == Some((done, PutAll(current, kvs, |kvs|)))
  {
    FieldTextsFacts(current, kvs, |kvs|);
  }

  /** A block of a passport's lines, each a non-empty list of plain keys and values. */
  type Block = seq<seq<(string, string)>>

  predicate Writable(block: Block)
  {
    forall i :: 0 <= i < |block| ==> |block[i]| >= 1 && AllPlain(block[i])
  }

  /** Every block is writable. */
  predicate AllWritable(blocks: seq<Block>)
  {
    |blocks| == 0 || (AllWritable(blocks[..|blocks| - 1]) && Writable(blocks[|blocks| - 1]))
  }

  /** The first `n` lines of a block. */
  function BlockLines(block: Block, n: nat): (r: seq<string>)
    requires Writable(block) && n <= |block|
    ensures |r| == n && forall i :: 0 <= i < n ==> r[i] == LineOf(block[i])
  {
    seq(n, i requires 0 <= i < n => LineOf(block[i]))
  }

  /** The kinds of the first `n` lines of a block. */
  function BlockKinds(block: Block, n: nat): (r: seq<LineKind>)
    requires n <= |block|
    ensures |r| == n
  {
    if n == 0 then [] else BlockKinds(block, n - 1) + [LineKindOf(block[n - 1])]
  }

  lemma {:induction false} BlockKindsAt(block: Block, n: nat)
    requires n <= |block|
    ensures forall i :: 0 <= i < n ==> BlockKinds(block, n)[i] == LineKindOf(block[i])
  {
    if n > 0 {
      BlockKindsAt(block, n - 1);
    }
  }

  /** The first `n` lines of a block put into a passport, in order. */
  function Fill(passport: Passport, block: Block, n: nat): Passport
    requires n <= |block|
  {
    if n == 0 then passport else PutAll(Fill(passport, block, n - 1), block[n - 1], |block[n - 1]|)
  }

  /** The blocks written one after another, with a blank line between consecutive blocks. */
  function WriteBlocks(blocks: seq<Block>): seq<string>
    requires |blocks| >= 1 && AllWritable(blocks)
  {
    var last := blocks[|blocks| - 1];
    if |blocks| == 1 then BlockLines(last, |last|)
    else WriteBlocks(blocks[..|blocks| - 1]) + [""] + BlockLines(last, |last|)
  }

  /** The kinds of the written blocks. */
  function WriteKinds(blocks: seq<Block>): seq<LineKind>
    requires |blocks| >= 1
  {
    var last := blocks[|blocks| - 1];
    if |blocks| == 1 then BlockKinds(last, |last|)
    else WriteKinds(blocks[..|blocks| - 1]) + [BlankLine] + BlockKinds(last, |last|)
  }

  /** The passports the blocks describe. */
  function BlockPassports(blocks: seq<Block>): (r: seq<Passport>)
    ensures |r| == |blocks| && forall i :: 0 <= i < |blocks| ==> r[i] == Fill(map[], blocks[i], |blocks[i]|)
  {
    seq(|blocks|, i requires 0 <= i < |blocks| => Fill(map[], blocks[i], |blocks[i]|))
  }

  /** The passports of the blocks but the last, then the last one's. */
  lemma BlockPassportsLast(blocks: seq<Block>)
    requires |blocks| >= 1
    ensures var last := blocks[|blocks| - 1];
      BlockPassports(blocks[..|blocks| - 1]) + [Fill(map[], last, |last|)] == BlockPassports(blocks)
  {
    var init := blocks[..|blocks| - 1];
    var last := blocks[|blocks| - 1];
    var r := BlockPassports(init) + [Fill(map[], last, |last|)];
    forall i | 0 <= i < |blocks| ensures r[i] == BlockPassports(blocks)[i] {
      if i < |init| {
        assert init[i] == blocks[i];
      }
    }
  }

  /** The scan of the first `n` kinds ignores the kinds after them. */
  lemma {:induction false} ScanPrefix(front: seq<LineKind>, back: seq<LineKind>, n: nat)
    requires n <= |front|
    ensures Scan(front + back, n) == Scan(front, n)
  {
    if n > 0 {
      ScanPrefix(front, back, n - 1);
      assert (front + back)[n - 1] == front[n - 1];
    }
  }

  /** The kinds of two runs of lines are the kinds of each run. */
  lemma KindsAppend(front: seq<string>, back: seq<string>)
    ensures Kinds(front + back) == Kinds(front) + Kinds(back)
  {
    var k := Kinds(front + back);
    assert forall i :: 0 <= i < |front| ==> k[i] == Classify(front[i]);
    assert forall i :: |front| <= i < |k| ==> k[i] == Classify(back[i - |front|]);
  }

  /** The lines of a block are lines of fields, free of newlines. */
  lemma BlockLinesKinds(block: Block, n: nat)
    requires Writable(block) && n <= |block|
    ensures Kinds(BlockLines(block, n)) == BlockKinds(block, n)
    ensures forall i :: 0 <= i < n ==> Unbroken(BlockLines(block, n)[i])
  {
    forall i | 0 <= i < n
      ensures Classify(LineOf(block[i])) == LineKindOf(block[i]) && Unbroken(LineOf(block[i]))
    {
      WrittenLine(block[i]);
    }
    BlockKindsAt(block, n);
  }

  /** The written lines are free of newlines and have the kinds of the written blocks. */
  lemma {:induction false} WriteBlocksKinds(blocks: seq<Block>)
    requires |blocks| >= 1 && AllWritable(blocks)
    ensures Kinds(WriteBlocks(blocks)) == WriteKinds(blocks)
    ensures forall i :: 0 <= i < |WriteBlocks(blocks)| ==> Unbroken(WriteBlocks(blocks)[i])
  {
    var last := blocks[|blocks| - 1];
    BlockLinesKinds(last, |last|);
    if |blocks| > 1 {
      var init := blocks[..|blocks| - 1];
      WriteBlocksKinds(init);
      var front := WriteBlocks(init) + [""];
      var tail := BlockLines(last, |last|);
      KindsAppend(front, tail);
      KindsAppend(WriteBlocks(init), [""]);
      assert Kinds([""]) == [BlankLine] by {
        assert Classify("") == BlankLine;
      }
      UnbrokenAppend(WriteBlocks(init), [""]);
      UnbrokenAppend(front, tail);
    }
  }

  /** Two runs of unbroken lines make an unbroken run. */
  lemma UnbrokenAppend(front: seq<string>, back: seq<string>)
    requires forall i :: 0 <= i < |front| ==> Unbroken(front[i])
    requires forall i :: 0 <= i < |back| ==> Unbroken(back[i])
    ensures forall i :: 0 <= i < |front + back| ==> Unbroken((front + back)[i])
  {
    forall i | |front| <= i < |front + back| ensures Unbroken((front + back)[i]) {
      assert (front + back)[i] == back[i - |front|];
    }
  }

  /** Scanning the first `n` lines of a block after some kinds fills them into the passport
      those kinds leave open. */
  lemma {:induction false} ScanBlock(prefix: seq<LineKind>, block: Block, n: nat, done: seq<Passport>, current: Passport)
    requires Writable(block) && n <= |block|
    requires Scan(prefix, |prefix|) == Some((done, current))
    ensures var kinds := prefix + BlockKinds(block, n);
      Scan(kinds, |kinds|) == Some((done, Fill(current, block, n)))
  {
    if n == 0 {
      assert prefix + BlockKinds(block, n) == prefix;
    } else {
      ScanBlock(prefix, block, n - 1, done, current);
      var kvs := block[n - 1];
      assert AllPlain(kvs);
      var before := prefix + BlockKinds(block, n - 1);
      assert prefix + BlockKinds(block, n) == before + [LineKindOf(kvs)];
      ScanLine(before, prefix + BlockKinds(block, n), kvs, done, Fill(current, block, n - 1));
    }
  }

  /** Scanning one more written line puts its keys and values into the open passport. */
  lemma ScanLine(before: seq<LineKind>, kinds: seq<LineKind>, kvs: seq<(string, string)>, done: seq<Passport>, current: Passport)
    requires kinds == before + [LineKindOf(kvs)]
    requires AllPlain(kvs)
    requires Scan(before, |before|) == Some((done, current))
    ensures Scan(kinds, |kinds|) == Some((done, PutAll(current, kvs, |kvs|)))
  {
    LineStep(done, current, kvs);
    ScanSnoc(before, LineKindOf(kvs), done, current);
  }

  /** Scanning one more kind takes one more step from where the scan stood. */
  lemma ScanSnoc(before: seq<LineKind>, kind: LineKind, done: seq<Passport>, current: Passport)
    requires Scan(before, |before|) == Some((done, current))
    ensures Scan(before + [kind], |before| + 1) == Step(done, current, kind)
  {
    var kinds := before + [kind];
    ScanPrefix(before, [kind], |before|);
    ScanLast(kinds, done, current);
  }

  /** The last step of a scan. */
  lemma ScanLast(kinds: seq<LineKind>, done: seq<Passport>, current: Passport)
    requires |kinds| >= 1 && Scan(kinds, |kinds| - 1) == Some((done, current))
    ensures Scan(kinds, |kinds|) == Step(done, current, kinds[|kinds| - 1])
  {
  }

  /** Scanning the kinds of written blocks finishes every block but the last, and fills the
      last. */
  lemma {:induction false} ScanBlocks(blocks: seq<Block>)
    requires |blocks| >= 1 && AllWritable(blocks)
    ensures var kinds := WriteKinds(blocks);
      var last := blocks[|blocks| - 1];
      Scan(kinds, |kinds|) == Some((BlockPassports(blocks[..|blocks| - 1]), Fill(map[], last, |last|)))
  {
    var last := blocks[|blocks| - 1];
    if |blocks| == 1 {
      ScanBlock([], last, |last|, [], map[]);
      assert [] + BlockKinds(last, |last|) == WriteKinds(blocks);
      assert BlockPassports(blocks[..0]) == [];
    } else {
      var init := blocks[..|blocks| - 1];
      var front := WriteKinds(init);
      ScanBlocks(init);
      BlockPassportsLast(init);
      var prefix := front + [BlankLine];
      ScanPrefix(front, [BlankLine], |front|);
      assert Scan(prefix, |prefix|) == Some((BlockPassports(init), map[]));
      ScanBlock(prefix, last, |last|, BlockPassports(init), map[]);
    }
  }

  /** `parse_passports` reads written blocks back into the passports they describe. */
  lemma ParseWritten(blocks: seq<Block>)
    requires |blocks| >= 1 && AllWritable(blocks)
    ensures forall i :: 0 <= i < |WriteBlocks(blocks)| ==> Unbroken(WriteBlocks(blocks)[i])
    ensures ParseLines(WriteBlocks(blocks)) == Some(BlockPassports(blocks))
  {
    WriteBlocksKinds(blocks);
    ScanBlocks(blocks);
    BlockPassportsLast(blocks);
  }

  /** A written line is never empty. */
  lemma LineOfNonEmpty(kvs: seq<(string, string)>)
    requires |kvs| >= 1 && AllPlain(kvs)
    ensures |LineOf(kvs)| > 0
  {
    FieldTextsFacts(map[], kvs, |kvs|);
    JoinFirst(FieldTexts(kvs, |kvs|), ' ');
  }

  /** `parse_passports` reads the text of written blocks, one line after another, back into
      the passports they describe. */
  lemma ParseText(blocks: seq<Block>)
    requires |blocks| >= 1 && AllWritable(blocks) && |blocks[|blocks| - 1]| >= 1
    ensures ParseLines(Lines(Join(WriteBlocks(blocks), '\n'))) == Some(BlockPassports(blocks))
  {
    ParseWritten(blocks);
    var lines := WriteBlocks(blocks);
    var last := blocks[|blocks| - 1];
    assert lines[|lines| - 1] == LineOf(last[|last| - 1]);
    LineOfNonEmpty(last[|last| - 1]);
    LinesJoin(lines);
  }

  // The unit tests, on the sample input

  lemma Sample0Plain() ensures AllPlain(Sample0()) { }
  lemma Sample1Plain() ensures AllPlain(Sample1()) { }
  lemma Sample2Plain() ensures AllPlain(Sample2()) { }
  lemma Sample3Plain() ensures AllPlain(Sample3()) { }
  lemma Sample4Plain() ensures AllPlain(Sample4()) { }
  lemma Sample5Plain() ensures AllPlain(Sample5()) { }
  lemma Sample6Plain() ensures AllPlain(Sample6()) { }
  lemma Sample7Plain() ensures AllPlain(Sample7()) { }
  lemma Sample8Plain() ensures AllPlain(Sample8()) { }
  lemma Sample9Plain() ensures AllPlain(Sample9()) { }

  /** The sample input as blocks: four passports of two, two, four and two lines. */
  function SampleBlocks(): seq<Block>
  {
    [[Sample0(), Sample1()], [Sample2(), Sample3()],
     [Sample4(), Sample5(), Sample6(), Sample7()], [Sample8(), Sample9()]]
  }

  lemma SampleWritable()
    ensures AllWritable(SampleBlocks())
  {
    Sample0Plain(); Sample1Plain(); Sample2Plain(); Sample3Plain(); Sample4Plain();
    Sample5Plain(); Sample6Plain(); Sample7Plain(); Sample8Plain(); Sample9Plain();
    var b := SampleBlocks();
    assert Writable(b[0]) && Writable(b[1]) && Writable(b[2]) && Writable(b[3]);
    assert AllWritable(b[..1]) by {
      assert b[..1][..0] == [];
    }
    assert AllWritable(b[..2]) by {
      assert b[..2][..1] == b[..1];
    }
    assert AllWritable(b[..3]) by {
      assert b[..3][..2] == b[..2];
    }
    assert b[..4] == b;
  }

  /** The first sample passport has every required field. */
  lemma SampleFirstFields()
    ensures ValidateFields(Fill(map[], SampleBlocks()[0], 2))
  {
    var b0 := SampleBlocks()[0];
    var q0 := PutAll(map[], Sample0(), 4);
    assert q0 == map["ecl" := "gry", "pid" := "860033327", "eyr" := "2020", "hcl" := "#fffffd"];
    var p0 := PutAll(q0, Sample1(), 4);
    assert p0 == q0["byr" := "1937"]["iyr" := "2017"]["cid" := "147"]["hgt" := "183cm"];
    assert Fill(map[], b0, 2) == p0;
    assert p0.Keys == RequiredFields;
  }

  /** The second sample passport lacks "hgt". */
  lemma SampleSecondFields()
    ensures !ValidateFields(Fill(map[], SampleBlocks()[1], 2))
  {
    var b1 := SampleBlocks()[1];
    var q1 := PutAll(map[], Sample2(), 5);
    assert q1.Keys == {"iyr", "ecl", "cid", "eyr", "pid"};
    var p1 := PutAll(q1, Sample3(), 2);
    assert p1.Keys == q1.Keys + {"hcl", "byr"};
    assert Fill(map[], b1, 2) == p1;
    assert "hgt" !in p1;
    ValidateFieldsMeans(p1, "");
  }

  /** `parse_passports` finds the four passports of the sample input, and `validate_fields`
      accepts the first and rejects the second. */
  method ParseExample()
  {
    var blocks := SampleBlocks();
    SampleWritable();
    ParseText(blocks);
    var passports := ParsePassports(Join(WriteBlocks(blocks), '\n'));
    assert passports == Some(BlockPassports(blocks));
    assert |passports.value| == 4;
    SampleFirstFields();
    SampleSecondFields();
    assert ValidateFields(passports.value[0]);
    assert !ValidateFields(passports.value[1]);
  }

  /** `is_hex` accepts 'a' and rejects '.'. */
  lemma IsHexExample()
    ensures IsHex('a') && !IsHex('.')
  {
  }

  /** The valid passport of the unit tests, as its two lines. */
  function ValidFront(): seq<(string, string)>
  {
    [("pid", "087499704"), ("hgt", "74in"), ("ecl", "grn"), ("iyr", "2012"), ("eyr", "2030"), ("byr", "1980")]
  }

  function ValidBack(): seq<(string, string)>
  {
    [("hcl", "#623a2f")]
  }

  function ValidSample(): Block
  {
    [ValidFront(), ValidBack()]
  }

  /** The invalid passport of the unit tests, as its two lines. */
  function InvalidFront(): seq<(string, string)>
  {
    [("eyr", "1972"), ("cid", "100")]
  }

  function InvalidBack(): seq<(string, string)>
  {
    [("hcl", "#18171d"), ("ecl", "amb"), ("hgt", "170"), ("pid", "186cm"), ("iyr", "2018"), ("byr", "1926")]
  }

  function InvalidSample(): Block
  {
    [InvalidFront(), InvalidBack()]
  }

  lemma ValidFrontPlain() ensures AllPlain(ValidFront()) { }
  lemma ValidBackPlain() ensures AllPlain(ValidBack()) { }
  lemma InvalidFrontPlain() ensures AllPlain(InvalidFront()) { }
  lemma InvalidBackPlain() ensures AllPlain(InvalidBack()) { }

  lemma ValidSampleWritable()
    ensures AllWritable([ValidSample()]) && |ValidSample()| >= 1
  {
    var b := ValidSample();
    ValidFrontPlain();
    ValidBackPlain();
    var blocks: seq<Block> := [b];
    assert blocks[..0] == [];
  }

  lemma InvalidSampleWritable()
    ensures AllWritable([InvalidSample()]) && |InvalidSample()| >= 1
  {
    var b := InvalidSample();
    InvalidFrontPlain();
    InvalidBackPlain();
    var blocks: seq<Block> := [b];
    assert blocks[..0] == [];
  }

  /** A key and value that `validate_contents` can check without panicking. */
  predicate Known(kv: (string, string))
  {
    kv.0 in RequiredFields && (kv.0 == "hgt" ==> |kv.1| >= 2)
  }

  /** A checkable key and value that passes its check. */
  predicate KnownValid(kv: (string, string))
  {
    Known(kv) && ValidField(kv.0, kv.1)
  }

  /** Putting checkable keys and values into a checkable passport keeps it checkable. */
  lemma {:induction false} PutAllCheckable(passport: Passport, kvs: seq<(string, string)>, n: nat)
    requires n <= |kvs| && Checkable(passport)
    requires forall j :: 0 <= j < n ==> Known(kvs[j])
    ensures Checkable(PutAll(passport, kvs, n))
  {
    if n > 0 {
      PutAllCheckable(passport, kvs, n - 1);
    }
  }

  /** A passport `validate_contents` can check, all of whose fields pass. */
  predicate ContentsValid(passport: Passport)
  {
    Checkable(passport) && forall k :: k in passport ==> ValidField(k, passport[k])
  }

  /** Putting valid keys and values into a passport whose fields are valid keeps its fields
      valid. */
  lemma {:induction false} PutAllValid(passport: Passport, kvs: seq<(string, string)>, n: nat)
    requires n <= |kvs| && ContentsValid(passport)
    requires forall j :: 0 <= j < n ==> KnownValid(kvs[j])
    ensures ContentsValid(PutAll(passport, kvs, n))
  {
    if n > 0 {
      var q := PutAll(passport, kvs, n - 1);
      PutAllValid(passport, kvs, n - 1);
      PutValid(q, kvs[n - 1]);
      assert PutAll(passport, kvs, n) == q[kvs[n - 1].0 := kvs[n - 1].1];
    }
  }

  /** One valid key and value put into a passport whose fields are valid. */
  lemma PutValid(passport: Passport, kv: (string, string))
    requires ContentsValid(passport) && KnownValid(kv)
    ensures ContentsValid(passport[kv.0 := kv.1])
  {
    var p := passport[kv.0 := kv.1];
    forall k | k in p ensures ValidField(k, p[k]) {
      if k != kv.0 {
        assert ValidField(k, passport[k]);
      }
    }
  }

  /** Every field of the valid passport passes its check. */
  lemma ValidSampleContents()
    ensures ContentsValid(Fill(map[], ValidSample(), 2))
  {
    ValidFrontFields();
    ValidBackFields();
    var b := ValidSample();
    assert b[0] == ValidFront() && b[1] == ValidBack();
    FillValid(map[], b, 2);
  }

  /** Filling a passport whose fields are valid with blocks of valid keys and values keeps
      its fields valid. */
  lemma {:induction false} FillValid(passport: Passport, block: Block, n: nat)
    requires n <= |block| && ContentsValid(passport)
    requires forall i, j :: 0 <= i < n && 0 <= j < |block[i]| ==> KnownValid(block[i][j])
    ensures ContentsValid(Fill(passport, block, n))
  {
    if n > 0 {
      FillValid(passport, block, n - 1);
      PutAllValid(Fill(passport, block, n - 1), block[n - 1], |block[n - 1]|);
    }
  }

  lemma ValidFrontFields()
    ensures forall j :: 0 <= j < 6 ==> KnownValid(ValidFront()[j])
  {
    var f := ValidFront();
    forall j | 0 <= j < 6 ensures KnownValid(f[j]) {
      if j == 0 {
        ValidPidExample();
      } else if j == 1 {
        ValidHeightExample();
      } else if j == 2 {
        ValidEyeExample();
      } else {
        ValidYearsExample();
      }
    }
  }

  lemma ValidBackFields()
    ensures forall j :: 0 <= j < 1 ==> KnownValid(ValidBack()[j])
  {
    HairField("#623a2f");
    assert ValidHairColor("#623a2f");
    assert KnownValid(ValidBack()[0]);
  }

  lemma ValidPidExample()
    ensures KnownValid(("pid", "087499704"))
  {
    ValidFieldFacts("087499704");
  }

  lemma ValidEyeExample()
    ensures KnownValid(("ecl", "grn"))
  {
  }

  lemma ValidHeightExample()
    ensures KnownValid(("hgt", "74in"))
  {
    assert Show(74) == "74" by {
      assert Show(7) == "7";
    }
    HeightField("74in", 74);
  }

  lemma ValidYearsExample()
    ensures KnownValid(("iyr", "2012")) && KnownValid(("eyr", "2030")) && KnownValid(("byr", "1980"))
  {
    YearField("iyr", "2012");
    YearField("eyr", "2030");
    YearField("byr", "1980");
  }

  /** The value of four digits. */
  function FourDigits(s: string): nat
    requires |s| == 4 && AllDigits(s)
  {
    1000 * DigitValue(s[0]) + 100 * DigitValue(s[1]) + 10 * DigitValue(s[2]) + DigitValue(s[3])
  }

  /** A year field of four digits is valid exactly when the year is in its range. */
  lemma YearField(key: string, value: string)
    requires key in {"byr", "iyr", "eyr"} && |value| == 4 && AllDigits(value)
    ensures ValidField(key, value) <==>
      if key == "byr" then 1920 <= FourDigits(value) <= 2002
      else if key == "iyr" then 2010 <= FourDigits(value) <= 2020
      else 2020 <= FourDigits(value) <= 2030
  {
    assert value[..3][..2][..1][..0] == [];
    assert value[..3][..2][..1] == value[..1];
    assert value[..3][..2] == value[..2];
    assert DigitsValue(value[..1]) == DigitValue(value[0]);
    assert DigitsValue(value[..2]) == 10 * DigitValue(value[0]) + DigitValue(value[1]);
    assert DigitsValue(value[..3]) == 100 * DigitValue(value[0]) + 10 * DigitValue(value[1]) + DigitValue(value[2]);
    assert value == value[..4];
    assert DigitsValue(value) == FourDigits(value);
  }

  lemma HeightField(value: string, inches: nat)
    requires inches < U32_LIMIT && value == Show(inches) + "in"
    ensures ValidField("hgt", value) <==> 59 <= inches <= 76
  {
    ParseShowU32(inches);
    assert value[..|value| - 2] == Show(inches);
  }

  lemma HeightCm(value: string, cm: nat)
    requires cm < U32_LIMIT && value == Show(cm) + "cm"
    ensures ValidField("hgt", value) <==> 150 <= cm <= 193
  {
    ParseShowU32(cm);
    assert value[..|value| - 2] == Show(cm);
  }

  lemma HairField(value: string)
    ensures ValidField("hcl", value) <==> ValidHairColor(value)
  {
  }

  /** A key that none of the first `n` pairs sets keeps its place and value. */
  lemma {:induction false} PutAllUntouched(passport: Passport, kvs: seq<(string, string)>, n: nat, key: string)
    requires n <= |kvs| && forall j :: 0 <= j < n ==> kvs[j].0 != key
    ensures key in PutAll(passport, kvs, n) <==> key in passport
    ensures key in passport ==> PutAll(passport, kvs, n)[key] == passport[key]
  {
    if n > 0 {
      PutAllUntouched(passport, kvs, n - 1, key);
    }
  }

  lemma InvalidFrontKnown()
    ensures forall j :: 0 <= j < 2 ==> Known(InvalidFront()[j])
  {
    var f := InvalidFront();
    assert f == [("eyr", "1972"), ("cid", "100")];
  }

  lemma InvalidBackKnown()
    ensures forall j :: 0 <= j < 6 ==> Known(InvalidBack()[j]) && InvalidBack()[j].0 != "eyr"
  {
    var b := InvalidBack();
    assert b == [("hcl", "#18171d"), ("ecl", "amb"), ("hgt", "170"), ("pid", "186cm"), ("iyr", "2018"), ("byr", "1926")];
  }

  /** The invalid passport has every required field, but its "eyr" is before 2020. */
  lemma InvalidSampleContents()
    ensures var p := Fill(map[], InvalidSample(), 2);
      Checkable(p) && "eyr" in p && !ValidField("eyr", p["eyr"])
  {
    var q := PutAll(map[], InvalidFront(), 2);
    assert q == map["eyr" := "1972", "cid" := "100"];
    InvalidFrontKnown();
    InvalidBackKnown();
    PutAllCheckable(map[], InvalidFront(), 2);
    PutAllCheckable(q, InvalidBack(), 6);
    PutAllUntouched(q, InvalidBack(), 6, "eyr");
    assert Fill(map[], InvalidSample(), 1) == q;
    YearField("eyr", "1972");
  }

  /** `validate_contents` accepts the valid passport and rejects the invalid one. */
  method ContentsExample()
  {
    ValidSampleWritable();
    ParseText([ValidSample()]);
    var valid := ParsePassports(Join(WriteBlocks([ValidSample()]), '\n'));
    ValidSampleContents();
    var accepted := ValidateContents(valid.value[0]);
    assert accepted;
    InvalidSampleWritable();
    ParseText([InvalidSample()]);
    var invalid := ParsePassports(Join(WriteBlocks([InvalidSample()]), '\n'));
    InvalidSampleContents();
    var rejected := ValidateContents(invalid.value[0]);
    assert !rejected;
  }
}
