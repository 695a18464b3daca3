/** The wrapping calculator (src/bin/2015-02.rs): each present is a box given as
    "LxWxH"; it needs its surface plus its smallest side in paper, and the perimeter of its
    smallest face plus its volume in ribbon. Dimensions are `i32` in the source, and the
    arithmetic is unbounded here. */
module Packages {
  import opened Wrappers
  import opened Text
  import opened Numbers
  import opened Sorting

  /** `Package`: a box's three dimensions. */
  datatype Package = Package(length: int, width: int, height: int)

  /** The areas of the three distinct sides. */
  function Sides(p: Package): (int, int, int)
  {
    (p.length * p.width, p.width * p.height, p.height * p.length)
  }

  /** `Package::wrapping_paper`: twice every side, plus the smallest side once more. */
  function WrappingPaper(p: Package): (r: int)
    ensures var (a, b, c) := Sides(p);
      var slack := r - (2 * a + 2 * b + 2 * c);
      (slack == a || slack == b || slack == c) && slack <= a && slack <= b && slack <= c
    ensures Solid(p) ==> r >= 0
  {
    var (a, b, c) := Sides(p);
    var area := 2 * a + 2 * b + 2 * c;
    var smallest := if a <= b && a <= c then a else if b <= c then b else c;
    area + smallest
  }

  /** `Package::ribbon`: sort the three dimensions, wrap the two smallest twice and add the
      product of all three for the bow. The result is twice the sum of every dimension but
      the largest, plus the volume. */
  function Ribbon(p: Package): (r: int)
    ensures var (l, w, h) := (p.length, p.width, p.height);
      var largest := if l >= w && l >= h then l else if w >= h then w else h;
      r == 2 * (l + w + h - largest) + l * w * h
    ensures Solid(p) ==> r >= 0
  {
    var faces := Sort([p.length, p.width, p.height]);
    SortedFaces(p.length, p.width, p.height);
    RibbonNonNegative(p.length, p.width, p.height);
    faces[0] * 2 + faces[1] * 2 + faces[0] * faces[1] * faces[2]
  }

  /** A box whose dimensions are none of them negative. */
  predicate Solid(p: Package)
  {
    p.length >= 0 && p.width >= 0 && p.height >= 0
  }

  /** The ribbon formula gives no negative length for a box without negative dimensions. */
  lemma RibbonNonNegative(l: int, w: int, h: int)
    ensures var largest := if l >= w && l >= h then l else if w >= h then w else h;
      l >= 0 && w >= 0 && h >= 0 ==> 2 * (l + w + h - largest) + l * w * h >= 0
  {
    if l >= 0 && w >= 0 && h >= 0 {
      assert l * w >= 0;
      assert l * w * h >= 0;
    }
  }

  /** The sorted dimensions, combined as the ribbon combines them, give twice the sum of
      every dimension but the largest, plus the volume. */
  lemma SortedFaces(l: int, w: int, h: int)
    ensures var faces := Sort([l, w, h]);
      var largest := if l >= w && l >= h then l else if w >= h then w else h;
      |faces| == 3 && faces[0] * 2 + faces[1] * 2 + faces[0] * faces[1] * faces[2] == 2 * (l + w + h - largest) + l * w * h
  {
    Sort3(l, w, h);
    if w <= h {
      Insert2(l, w, h);
    } else {
      Insert2(l, h, w);
    }
    RibbonOfOrder(Sort([l, w, h]), l, w, h);
  }

  /** Sorting three values is inserting the first into the sorted last two. */
  lemma Sort3(a: int, b: int, c: int)
    ensures Sort([a, b, c]) == Insert(a, if b <= c then [b, c] else [c, b])
    ensures |Sort([a, b, c])| == 3
  {
    Sort2(b, c);
    assert [a, b, c][1..] == [b, c];
  }

  lemma Sort2(b: int, c: int)
    ensures Sort([b, c]) == if b <= c then [b, c] else [c, b]
  {
    Sort1(c);
    assert [b, c][1..] == [c];
    if b > c {
      assert [c][1..] == [];
      assert Insert(b, []) == [b];
    }
  }

  lemma Sort1(c: int)
    ensures Sort([c]) == [c]
  {
    assert [c][1..] == [];
  }

  /** The arrangements of three values. */
  predicate IsOrderOf(f: seq<int>, a: int, b: int, c: int)
  {
    f == [a, b, c] || f == [a, c, b] || f == [b, a, c] || f == [b, c, a] || f == [c, a, b] || f == [c, b, a]
  }

  /** The ribbon formula on an ascending arrangement of the three dimensions. */
  lemma RibbonOfOrder(f: seq<int>, l: int, w: int, h: int)
    requires IsOrderOf(f, l, w, h) && f[0] <= f[1] <= f[2]
    ensures var largest := if l >= w && l >= h then l else if w >= h then w else h;
      f[0] * 2 + f[1] * 2 + f[0] * f[1] * f[2] == 2 * (l + w + h - largest) + l * w * h
  {
  }

  /** Inserting into two ascending values. */
  lemma Insert2(a: int, x: int, y: int)
    requires x <= y
    ensures Insert(a, [x, y]) == if a <= x then [a, x, y] else if a <= y then [x, a, y] else [x, y, a]
  {
    assert [x, y][1..] == [y];
    if a > x {
      assert [y][1..] == [];
      assert Insert(a, [y]) == if a <= y then [a, y] else [y] + Insert(a, []);
      assert Insert(a, []) == [a];
    }
  }

  /** Turning the box over does not change the ribbon it needs. */
  lemma RibbonPermutation(p: Package, q: Package)
    requires multiset{p.length, p.width, p.height} == multiset{q.length, q.width, q.height}
    ensures Ribbon(p) == Ribbon(q)
  {
    var s := [p.length, p.width, p.height];
    var t := [q.length, q.width, q.height];
    assert multiset(s) == multiset{p.length, p.width, p.height};
    assert multiset(t) == multiset{q.length, q.width, q.height};
    SortedUnique(Sort(s), Sort(t));
  }

  /** Nor does it change the paper: the sides are the same three areas. */
  lemma WrappingPaperRotation(p: Package)
    ensures WrappingPaper(p) == WrappingPaper(Package(p.width, p.height, p.length))
    ensures WrappingPaper(p) == WrappingPaper(Package(p.width, p.length, p.height))
  {
  }

  /** `total_wrapping_paper`: the paper of every package, summed; never negative when no
      box has a negative dimension. */
  function TotalWrappingPaper(packages: seq<Package>): (r: int)
    ensures (forall i :: 0 <= i < |packages| ==> Solid(packages[i])) ==> r >= 0
  {
    if packages == [] then 0
    else
      var earlier := packages[..|packages| - 1];
      assert forall i :: 0 <= i < |earlier| ==> earlier[i] == packages[i];
      TotalWrappingPaper(earlier) + WrappingPaper(packages[|packages| - 1])
  }

  /** `total_ribbon`: the ribbon of every package, summed; never negative when no box has
      a negative dimension. */
  function TotalRibbon(packages: seq<Package>): (r: int)
    ensures (forall i :: 0 <= i < |packages| ==> Solid(packages[i])) ==> r >= 0
  {
    if packages == [] then 0
    else
      var earlier := packages[..|packages| - 1];
      assert forall i :: 0 <= i < |earlier| ==> earlier[i] == packages[i];
      TotalRibbon(earlier) + Ribbon(packages[|packages| - 1])
  }

  /** The totals of two consignments add up. */
  lemma {:induction false} TotalsAppend(a: seq<Package>, b: seq<Package>)
    ensures TotalWrappingPaper(a + b) == TotalWrappingPaper(a) + TotalWrappingPaper(b)
    ensures TotalRibbon(a + b) == TotalRibbon(a) + TotalRibbon(b)
    decreases |b|
  {
    if b == [] {
      assert a + b == a;
    } else {
      assert (a + b)[..|a + b| - 1] == a + b[..|b| - 1];
      TotalsAppend(a, b[..|b| - 1]);
    }
  }

  /** `decode_package`: exactly three 'x'-separated `i32` numbers; `None` where the source
      panics. */
  function DecodePackage(line: string): (r: Option<Package>)
    ensures r.Some? <==> var d := Split(line, 'x');
      |d| == 3 && ParseI32(d[0]).Some? && ParseI32(d[1]).Some? && ParseI32(d[2]).Some?
    ensures r.Some? ==> var d := Split(line, 'x');
      r.value == Package(ParseI32(d[0]).value, ParseI32(d[1]).value, ParseI32(d[2]).value)
  {
    var dimensions := Split(line, 'x');
    if |dimensions| != 3 then None
    else
      match (ParseI32(dimensions[0]), ParseI32(dimensions[1]), ParseI32(dimensions[2]))
      case (Some(l), Some(w), Some(h)) => Some(Package(l, w, h))
      case _ => None
  }

  /** The text form of a package, the inverse of DecodePackage. */
  function EncodePackage(p: Package): string
  {
    Join([ShowInt(p.length), ShowInt(p.width), ShowInt(p.height)], 'x')
  }

  lemma ShowIntNoX(i: int)
    ensures 'x' !in ShowInt(i)
  {
  }

  /** Every package with `i32` dimensions reads back from its text form. */
  lemma DecodeEncode(p: Package)
    requires I32_MIN <= p.length <= I32_MAX
    requires I32_MIN <= p.width <= I32_MAX
    requires I32_MIN <= p.height <= I32_MAX
    ensures DecodePackage(EncodePackage(p)) == Some(p)
  {
    var pieces := [ShowInt(p.length), ShowInt(p.width), ShowInt(p.height)];
    ShowIntNoX(p.length);
    ShowIntNoX(p.width);
    ShowIntNoX(p.height);
    SplitJoin(pieces, 'x');
    ParseShowI32(p.length);
    ParseShowI32(p.width);
    ParseShowI32(p.height);
  }

  /** `decode_all_packages`: one package per line, in order, or `None` if any line does
      not decode. */
  function DecodeAllPackages(input: string): (r: Option<seq<Package>>)
    ensures r.Some? <==> forall i :: 0 <= i < |Lines(input)| ==> DecodePackage(Lines(input)[i]).Some?
    ensures r.Some? ==> (|r.value| == |Lines(input)|
      && forall i :: 0 <= i < |r.value| ==> DecodePackage(Lines(input)[i]) == Some(r.value[i]))
  {
    DecodeLines(Lines(input))
  }

  function DecodeLines(lines: seq<string>): (r: Option<seq<Package>>)
    ensures r.Some? <==> forall i :: 0 <= i < |lines| ==> DecodePackage(lines[i]).Some?
    ensures r.Some? ==> (|r.value| == |lines|
      && forall i :: 0 <= i < |lines| ==> DecodePackage(lines[i]) == Some(r.value[i]))
  {
    var decoded := seq(|lines|, i requires 0 <= i < |lines| => DecodePackage(lines[i]));
    assert forall i :: 0 <= i < |lines| ==> decoded[i] == DecodePackage(lines[i]);
    Collect(decoded)
  }

  /** `collect` into an `Option`: all the values in order when every entry is present,
      otherwise `None`. */
  function Collect(results: seq<Option<Package>>): (r: Option<seq<Package>>)
    ensures r.Some? <==> forall i :: 0 <= i < |results| ==> results[i].Some?
    ensures r.Some? ==> (|r.value| == |results|
      && forall i :: 0 <= i < |results| ==> results[i] == Some(r.value[i]))
  {
    if results == [] then Some([])
    else
      match results[0]
      case None => None
      case Some(first) =>
        match Collect(results[1..])
        case None =>
          assert !(forall i :: 0 <= i < |results| - 1 ==> results[1..][i].Some?);
          None
        case Some(rest) =>
          Some([first] + rest)
  }

  /** The unit tests of `wrapping_paper`, `ribbon` and the totals. */
  lemma PackageExamples()
    ensures WrappingPaper(Package(2, 3, 4)) == 58 && WrappingPaper(Package(1, 1, 10)) == 43
    ensures Ribbon(Package(2, 3, 4)) == 34 && Ribbon(Package(1, 1, 10)) == 14
    ensures TotalWrappingPaper([Package(2, 3, 4), Package(1, 1, 10)]) == 101
    ensures TotalRibbon([Package(2, 3, 4), Package(1, 1, 10)]) == 48
  {
    SampleValues();
    SampleTotals(Package(2, 3, 4), Package(1, 1, 10));
  }

  /** Paper and ribbon for each of the two sample packages. */
  lemma SampleValues()
    ensures WrappingPaper(Package(2, 3, 4)) == 58 && WrappingPaper(Package(1, 1, 10)) == 43
    ensures Ribbon(Package(2, 3, 4)) == 34 && Ribbon(Package(1, 1, 10)) == 14
  {
  }

  /** The totals of a single package are that package's paper and ribbon. */
  lemma TotalsSingle(p: Package)
    ensures TotalWrappingPaper([p]) == WrappingPaper(p) && TotalRibbon([p]) == Ribbon(p)
  {
    assert [p][..0] == [];
  }

  /** The totals of two packages are the sums of their paper and of their ribbon. */
  lemma SampleTotals(a: Package, b: Package)
    ensures TotalWrappingPaper([a, b]) == WrappingPaper(a) + WrappingPaper(b)
    ensures TotalRibbon([a, b]) == Ribbon(a) + Ribbon(b)
  {
    var ab := [a, b];
    assert ab[..1] == [a];
    TotalsSingle(a);
  }

  /** The unit test of `decode_package`. */
  lemma DecodeExample()
    ensures DecodePackage("1x2x3") == Some(Package(1, 2, 3))
  {
    DecodeEncode(Package(1, 2, 3));
    assert EncodePackage(Package(1, 2, 3)) == "1x2x3";
  }

  /** Packages in the `i32` range, which is what `decode_package` can produce. */
  predicate InI32Range(p: Package)
  {
    I32_MIN <= p.length <= I32_MAX && I32_MIN <= p.width <= I32_MAX && I32_MIN <= p.height <= I32_MAX
  }

  /** The text of a list of packages, one per line. */
  function EncodeAll(packages: seq<Package>): (lines: seq<string>)
    ensures |lines| == |packages|
    ensures forall i :: 0 <= i < |lines| ==> lines[i] == EncodePackage(packages[i])
  {
    if packages == [] then [] else [EncodePackage(packages[0])] + EncodeAll(packages[1..])
  }

  /** Any list of `i32` packages, written one per line, decodes back to itself. */
  lemma {:induction false} DecodeAllEncode(packages: seq<Package>)
    requires forall i :: 0 <= i < |packages| ==> InI32Range(packages[i])
    ensures DecodeAllPackages(Unlines(EncodeAll(packages))) == Some(packages)
  {
    var lines := EncodeAll(packages);
    forall i | 0 <= i < |lines| ensures Unbroken(lines[i]) && DecodePackage(lines[i]) == Some(packages[i]) {
      DecodeEncode(packages[i]);
      UnbrokenEncoding(packages[i]);
    }
    LinesUnlines(lines);
    var r := DecodeLines(lines);
    assert r.value == packages;
  }

  /** The text of a package holds no newline and ends in a digit, never in '\r'. */
  lemma UnbrokenEncoding(p: Package)
    ensures Unbroken(EncodePackage(p))
  {
    var pieces := [ShowInt(p.length), ShowInt(p.width), ShowInt(p.height)];
    assert pieces[1..][1..] == [pieces[2]];
    assert Join(pieces[1..], 'x') == pieces[1] + "x" + pieces[2];
    var text := pieces[0] + "x" + (pieces[1] + "x" + pieces[2]);
    assert EncodePackage(p) == text;
    var last := pieces[2];
    assert |last| > 0 && IsDigit(last[|last| - 1]);
    assert text[|text| - 1] == last[|last| - 1];
  }

  /** The unit test of `decode_all_packages`. */
  lemma DecodeAllExample(text: string)
    requires text == "2x3x4\n1x1x10\n"
    ensures DecodeAllPackages(text) == Some([Package(2, 3, 4), Package(1, 1, 10)])
  {
    var packages := [Package(2, 3, 4), Package(1, 1, 10)];
    DecodeAllEncode(packages);
    ExampleText(packages);
  }

  /** The two-line input of the unit test, written one package per line. */
  lemma ExampleText(packages: seq<Package>)
    requires packages == [Package(2, 3, 4), Package(1, 1, 10)]
    ensures Unlines(EncodeAll(packages)) == "2x3x4\n1x1x10\n"
  {
    var lines := EncodeAll(packages);
    assert EncodePackage(packages[0]) == "2x3x4";
    assert EncodePackage(packages[1]) == "1x1x10";
    assert lines == ["2x3x4", "1x1x10"];
    SampleUnlines(lines);
  }

  lemma SampleUnlines(lines: seq<string>)
    requires lines == ["2x3x4", "1x1x10"]
    ensures Unlines(lines) == "2x3x4\n1x1x10\n"
  {
    var rest := lines[1..];
    assert rest == ["1x1x10"] && rest[1..] == [];
    assert Unlines(rest) == "1x1x10\n";
    assert lines[0] + "\n" + "1x1x10\n" == "2x3x4\n1x1x10\n";
  }
}
