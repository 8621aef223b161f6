/**
 * The file ordering and renaming of src/yolo/combine_datasets.py: the
 * natural sort key, the sorted listing of a folder's files and the rename
 * map that numbers them. The folder listing, the directory and file tests
 * and the renames themselves are host filesystem calls: the listing and the
 * tests come in as parameters, and the renames come back as a sequence, in
 * the order they are made.
 */
module CombineDatasets {
  import opened Wrappers
  import opened Strings

  /** One element of a natural sort key: a text piece or the value of a digit run. */
  datatype KeyPart = Text(text: string) | Num(value: nat)

  predicate NoDigits(s: string) { forall k :: 0 <= k < |s| ==> !IsDigit(s[k]) }

  /** The length of the leading run of non-digits. */
  function TextRun(s: string): (n: nat)
    ensures n <= |s|
  {
    if s == [] || IsDigit(s[0]) then 0 else 1 + TextRun(s[1..])
  }

  /** The length of the leading run of digits. */
  function DigitRun(s: string): (n: nat)
    ensures n <= |s|
  {
    if s == [] || !IsDigit(s[0]) then 0 else 1 + DigitRun(s[1..])
  }

  /** A run of non-digits ends at a digit or at the end; a digit run that starts at a digit is not empty. */
  lemma {:induction false} RunsEnd(s: string)
    ensures TextRun(s) < |s| ==> IsDigit(s[TextRun(s)])
    ensures DigitRun(s) < |s| ==> !IsDigit(s[DigitRun(s)])
    ensures s != [] && IsDigit(s[0]) ==> DigitRun(s) > 0
    decreases |s|
  {
    if s != [] {
      RunsEnd(s[1..]);
    }
  }

  /** The leading run of non-digits holds no digit. */
  lemma {:induction false} TextRunNoDigits(s: string)
    ensures NoDigits(s[..TextRun(s)])
    decreases |s|
  {
    if s != [] && !IsDigit(s[0]) {
      TextRunNoDigits(s[1..]);
      assert s[..TextRun(s)] == [s[0]] + s[1..][..TextRun(s[1..])];
    }
  }

  /** The leading run of digits holds only digits. */
  lemma {:induction false} DigitRunAllDigits(s: string)
    ensures AllDigits(s[..DigitRun(s)])
    decreases |s|
  {
    if s != [] && IsDigit(s[0]) {
      DigitRunAllDigits(s[1..]);
      assert s[..DigitRun(s)] == [s[0]] + s[1..][..DigitRun(s[1..])];
    }
  }

  /** Piece `k` is a (possibly empty) text without digits at an even position, a digit run at an odd one. */
  predicate PieceOk(r: seq<string>, k: nat)
    requires k < |r|
  {
    if k % 2 == 0 then NoDigits(r[k]) else r[k] != [] && AllDigits(r[k])
  }

  /** The shape of `re.split` with one capturing group: odd length, texts and digit runs alternating. */
  predicate Alternating(r: seq<string>)
  {
    |r| % 2 == 1 && forall k :: 0 <= k < |r| ==> PieceOk(r, k)
  }

  lemma AlternatingCons(a: string, b: string, rest: seq<string>)
    requires NoDigits(a) && b != [] && AllDigits(b) && Alternating(rest)
    ensures Alternating([a, b] + rest)
  {
    var r := [a, b] + rest;
    forall k | 2 <= k < |r|
      ensures PieceOk(r, k)
    {
      assert r[k] == rest[k - 2] && PieceOk(rest, k - 2);
    }
    assert PieceOk(r, 0) && PieceOk(r, 1);
  }

  /**
   * `re.split(r'(\d+)', s)`: the non-digit pieces (possibly empty) at even
   * positions, the digit runs between them at odd positions.
   */
  function Pieces(s: string): seq<string>
    decreases |s|
  {
    var t := TextRun(s);
    if t == |s| then [s]
    else
      RunsEnd(s);
      RunsEnd(s[t..]);
      var d := DigitRun(s[t..]);
      [s[..t], s[t..t + d]] + Pieces(s[t + d..])
  }

  /** The pieces have the shape `re.split` gives with one capturing group. */
  lemma {:induction false} PiecesAlternating(s: string)
    ensures Alternating(Pieces(s))
    decreases |s|
  {
    var t := TextRun(s);
    TextRunNoDigits(s);
    if t == |s| {
      assert s[..t] == s && PieceOk([s], 0);
    } else {
      var d := DigitRun(s[t..]);
      PiecesUnfold(s, t, d);
      PiecesAlternating(s[t + d..]);
      PiecesAlternatingStep(s, t, d, Pieces(s[t + d..]));
    }
  }

  lemma DigitsOfSlice(s: string, t: nat, d: nat)
    requires t + d <= |s| && AllDigits(s[t..][..d])
    ensures AllDigits(s[t..t + d])
  {
    assert s[t..][..d] == s[t..t + d];
  }

  lemma PiecesAlternatingStep(s: string, t: nat, d: nat, rest: seq<string>)
    requires t == TextRun(s) && t < |s| && d == DigitRun(s[t..]) && NoDigits(s[..t])
    requires Alternating(rest) && Pieces(s) == [s[..t], s[t..t + d]] + rest
    ensures Alternating(Pieces(s))
  {
    RunsEnd(s);
    RunsEnd(s[t..]);
    DigitRunAllDigits(s[t..]);
    DigitsOfSlice(s, t, d);
    AlternatingCons(s[..t], s[t..t + d], rest);
  }

  function Concat(r: seq<string>): string
  {
    if r == [] then [] else r[0] + Concat(r[1..])
  }

  lemma ConcatCons(a: string, b: string, rest: seq<string>)
    ensures Concat([a, b] + rest) == a + (b + Concat(rest))
  {
    assert ([a, b] + rest)[1..] == [b] + rest;
    assert ([b] + rest)[1..] == rest;
  }

  lemma SliceJoin(s: string, t: nat, u: nat)
    requires t <= u <= |s|
    ensures s[..t] + (s[t..u] + s[u..]) == s
  {
  }

  /** The pieces put back together give the name again. */
  lemma {:induction false} PiecesConcat(s: string)
    ensures Concat(Pieces(s)) == s
    decreases |s|
  {
    var t := TextRun(s);
    if t == |s| {
      assert [s][1..] == [] && s + [] == s;
    } else {
      var d := DigitRun(s[t..]);
      PiecesUnfold(s, t, d);
      RunsEnd(s);
      RunsEnd(s[t..]);
      PiecesConcat(s[t + d..]);
      ConcatCons(s[..t], s[t..t + d], Pieces(s[t + d..]));
      SliceJoin(s, t, t + d);
    }
  }

  /** `natural_sort_key`: digit runs become numbers, other pieces lower case. */
  function NaturalSortKey(filename: string): (r: seq<KeyPart>)
    ensures |r| % 2 == 1
    ensures forall k :: 0 <= k < |r| ==> (k % 2 == 0 <==> r[k].Text?)
  {
    var p := Pieces(filename);
    PiecesAlternating(filename);
    var r := seq(|p|, k requires 0 <= k < |p| =>
      if p[k] != [] && AllDigits(p[k]) then Num(ParseNat(p[k])) else Text(Lower(p[k])));
    assert forall k :: 0 <= k < |r| ==> (k % 2 == 0 <==> r[k].Text?) by {
      forall k | 0 <= k < |r|
        ensures k % 2 == 0 <==> r[k].Text?
      {
        assert PieceOk(p, k);
        if k % 2 == 0 && p[k] != [] {
          assert !IsDigit(p[k][0]);
        }
      }
    }
    r
  }

  // ---------------------------------------------------------------------
  // Python's comparison of two keys: element by element, a proper prefix
  // first. A `str` and an `int` at the same position cannot be compared;
  // `KeysAlign` shows this never happens for two keys of file names.

  predicate PartLess(a: KeyPart, b: KeyPart)
  {
    match (a, b)
    case (Text(x), Text(y)) => LexLess(x, y)
    case (Num(m), Num(n)) => m < n
    case _ => false
  }

  predicate KeyLess(a: seq<KeyPart>, b: seq<KeyPart>)
  {
    if a == [] then b != []
    else if b == [] then false
    else if a[0] != b[0] then PartLess(a[0], b[0])
    else KeyLess(a[1..], b[1..])
  }

  /** At every position both keys have, both hold a text or both a number. */
  lemma KeysAlign(f: string, g: string, k: nat)
    requires k < |NaturalSortKey(f)| && k < |NaturalSortKey(g)|
    ensures NaturalSortKey(f)[k].Text? == NaturalSortKey(g)[k].Text?
  {
  }

  lemma PartLessAsymmetric(a: KeyPart, b: KeyPart)
    requires PartLess(a, b)
    ensures !PartLess(b, a) && a != b
  {
    if a.Text? {
      LexTrichotomy(a.text, b.text);
    }
  }

  lemma {:induction false} KeyLessAsymmetric(a: seq<KeyPart>, b: seq<KeyPart>)
    requires KeyLess(a, b)
    ensures !KeyLess(b, a)
  {
    if a != [] && b != [] {
      if a[0] != b[0] {
        PartLessAsymmetric(a[0], b[0]);
      } else {
        KeyLessAsymmetric(a[1..], b[1..]);
      }
    }
  }

  // ---------------------------------------------------------------------
  // Keys of names with a single digit run.

  lemma {:induction false} TextRunOf(t: string, x: string)
    requires NoDigits(t) && (x == [] || IsDigit(x[0]))
    ensures TextRun(t + x) == |t|
    decreases |t|
  {
    if t != [] {
      assert (t + x)[1..] == t[1..] + x;
      TextRunOf(t[1..], x);
    }
  }

  lemma {:induction false} DigitRunOf(d: string, u: string)
    requires AllDigits(d) && (u == [] || !IsDigit(u[0]))
    ensures DigitRun(d + u) == |d|
    decreases |d|
  {
    if d != [] {
      assert (d + u)[1..] == d[1..] + u;
      DigitRunOf(d[1..], u);
    }
  }

  /** A text, one digit run and a text split into exactly these three pieces. */
  lemma PiecesOfOneRun(t: string, d: string, u: string)
    requires NoDigits(t) && d != [] && AllDigits(d) && NoDigits(u)
    ensures Pieces(t + d + u) == [t, d, u]
  {
    var s := t + d + u;
    assert s == t + (d + u);
    TextRunOf(t, d + u);
    assert s[|t|..] == d + u;
    DigitRunOf(d, u);
    assert s[|t|..|t| + |d|] == d && s[..|t|] == t && s[|t| + |d|..] == u;
    TextRunOf(u, []);
    assert u + [] == u;
  }

  lemma KeyOfOneRun(t: string, d: string, u: string)
    requires NoDigits(t) && d != [] && AllDigits(d) && NoDigits(u)
    ensures NaturalSortKey(t + d + u) == [Text(Lower(t)), Num(ParseNat(d)), Text(Lower(u))]
  {
    PiecesOfOneRun(t, d, u);
    if t != [] { assert !IsDigit(t[0]); }
    if u != [] { assert !IsDigit(u[0]); }
  }

  /** Names that differ only in the number they carry order by that number: `image2` before `image10`. */
  lemma NumbersOrderByValue(t: string, m: nat, n: nat, u: string)
    requires NoDigits(t) && NoDigits(u) && m < n
    ensures KeyLess(NaturalSortKey(t + NatToString(m) + u), NaturalSortKey(t + NatToString(n) + u))
  {
    ParseNatToString(m);
    ParseNatToString(n);
    KeyOfOneRun(t, NatToString(m), u);
    KeyOfOneRun(t, NatToString(n), u);
  }

  /** `image2` orders before `image10` under the key, and after it as plain strings. */
  lemma Image2BeforeImage10()
    ensures KeyLess(NaturalSortKey("image2"), NaturalSortKey("image10"))
    ensures LexLess("image10", "image2")
  {
    var two, ten := NatToString(2), NatToString(10);
    assert two == "2";
    assert ten == "10";
    assert NoDigits("image");
    NumbersOrderByValue("image", 2, 10, "");
    assert "image" + two + "" == "image2";
    assert "image" + ten + "" == "image10";
    LexLessCommonPrefix("image", "10", "2");
    assert "image" + "10" == "image10" && "image" + "2" == "image2";
  }

  /** Leading zeros of the number do not change the key. */
  lemma LeadingZerosIgnored(t: string, d: string, u: string)
    requires NoDigits(t) && d != [] && AllDigits(d) && NoDigits(u)
    ensures NaturalSortKey(t + ("0" + d) + u) == NaturalSortKey(t + d + u)
  {
    ParseNatLeadingZero(d);
    KeyOfOneRun(t, "0" + d, u);
    KeyOfOneRun(t, d, u);
  }

  // ---------------------------------------------------------------------
  // Letter case does not change the key.

  lemma LowerSlice(s: string, i: nat, j: nat)
    requires i <= j <= |s|
    ensures Lower(s)[i..j] == Lower(s[i..j])
  {
  }

  lemma LowerTake(s: string, i: nat)
    requires i <= |s|
    ensures Lower(s)[..i] == Lower(s[..i])
  {
  }

  lemma LowerDrop(s: string, i: nat)
    requires i <= |s|
    ensures Lower(s)[i..] == Lower(s[i..])
  {
  }

  lemma LowerKeepsDigits(s: string)
    ensures forall k :: 0 <= k < |s| ==> (IsDigit(Lower(s)[k]) <==> IsDigit(s[k]))
  {
  }

  lemma LowerOfDigits(s: string)
    requires AllDigits(s)
    ensures Lower(s) == s
  {
  }

  lemma LowerIdempotent(s: string)
    ensures Lower(Lower(s)) == Lower(s)
  {
  }

  lemma {:induction false} TextRunLower(s: string)
    ensures TextRun(Lower(s)) == TextRun(s)
    decreases |s|
  {
    LowerKeepsDigits(s);
    if s != [] && !IsDigit(s[0]) {
      LowerDrop(s, 1);
      TextRunLower(s[1..]);
    }
  }

  lemma {:induction false} DigitRunLower(s: string)
    ensures DigitRun(Lower(s)) == DigitRun(s)
    decreases |s|
  {
    LowerKeepsDigits(s);
    if s != [] && IsDigit(s[0]) {
      LowerDrop(s, 1);
      DigitRunLower(s[1..]);
    }
  }

  function LowerAll(r: seq<string>): (q: seq<string>)
    ensures |q| == |r| && forall k :: 0 <= k < |r| ==> q[k] == Lower(r[k])
  {
    if r == [] then [] else [Lower(r[0])] + LowerAll(r[1..])
  }

  lemma LowerAllCons(a: string, b: string, rest: seq<string>)
    ensures LowerAll([a, b] + rest) == [Lower(a), Lower(b)] + LowerAll(rest)
  {
    assert ([a, b] + rest)[1..] == [b] + rest;
    assert ([b] + rest)[1..] == rest;
  }

  /** One step of `Pieces` on a name that holds a digit. */
  lemma PiecesUnfold(s: string, t: nat, d: nat)
    requires t == TextRun(s) && t < |s| && d == DigitRun(s[t..])
    ensures Pieces(s) == [s[..t], s[t..t + d]] + Pieces(s[t + d..])
  {
  }

  /** Lower-casing a name lower-cases each of its pieces. */
  lemma {:induction false} PiecesLower(s: string)
    ensures Pieces(Lower(s)) == LowerAll(Pieces(s))
    decreases |s|
  {
    var t := TextRun(s);
    var ls := Lower(s);
    TextRunLower(s);
    if t == |s| {
      assert LowerAll([s]) == [ls];
    } else {
      var d := DigitRun(s[t..]);
      LowerDrop(s, t);
      DigitRunLower(s[t..]);
      LowerTake(s, t);
      LowerSlice(s, t, t + d);
      LowerDrop(s, t + d);
      PiecesLower(s[t + d..]);
      PiecesUnfold(s, t, d);
      PiecesLowerStep(s, ls, t, d, Pieces(s[t + d..]));
    }
  }

  lemma PiecesLowerStep(s: string, ls: string, t: nat, d: nat, rest: seq<string>)
    requires t + d <= |s| == |ls| && t < |ls| && TextRun(ls) == t && DigitRun(ls[t..]) == d
    requires ls[..t] == Lower(s[..t]) && ls[t..t + d] == Lower(s[t..t + d])
    requires Pieces(ls[t + d..]) == LowerAll(rest)
    requires Pieces(s) == [s[..t], s[t..t + d]] + rest
    ensures Pieces(ls) == LowerAll(Pieces(s))
  {
    PiecesUnfold(ls, t, d);
    LowerAllCons(s[..t], s[t..t + d], rest);
  }

  /** A name and its lower-case form have the same key. */
  lemma KeyOfLower(s: string)
    ensures NaturalSortKey(Lower(s)) == NaturalSortKey(s)
  {
    PiecesLower(s);
    var p, q := Pieces(s), Pieces(Lower(s));
    forall k | 0 <= k < |p|
      ensures NaturalSortKey(Lower(s))[k] == NaturalSortKey(s)[k]
    {
      LowerIdempotent(p[k]);
      if p[k] != [] && AllDigits(p[k]) {
        LowerOfDigits(p[k]);
      } else if p[k] != [] {
        LowerKeepsDigits(p[k]);
        var c :| 0 <= c < |p[k]| && !IsDigit(p[k][c]);
        assert !IsDigit(q[k][c]);
      }
    }
  }

  /** Names that differ only in letter case get equal keys. */
  lemma CaseIgnored(f: string, g: string)
    requires Lower(f) == Lower(g)
    ensures NaturalSortKey(f) == NaturalSortKey(g)
  {
    KeyOfLower(f);
    KeyOfLower(g);
  }

  // ---------------------------------------------------------------------
  // `sort_files_naturally`

  /** `r` holds each file of `listing` as often as the listing does, and nothing else. */
  ghost predicate FilesKept(r: seq<string>, listing: seq<string>, isFile: string -> bool)
  {
    forall x :: multiset(r)[x] == (if isFile(x) then multiset(listing)[x] else 0)
  }

  /** The listing's entries that are files, in listing order. */
  function FilesOf(listing: seq<string>, isFile: string -> bool): (r: seq<string>)
    ensures FilesKept(r, listing, isFile)
    ensures forall k :: 0 <= k < |r| ==> isFile(r[k])
  {
    if listing == [] then []
    else
      var rest := FilesOf(listing[1..], isFile);
      assert listing == [listing[0]] + listing[1..];
      if isFile(listing[0]) then [listing[0]] + rest else rest
  }

  /** A name is kept iff it is listed and is a file. */
  lemma FilesOfMembers(listing: seq<string>, isFile: string -> bool, x: string)
    ensures x in FilesOf(listing, isFile) <==> x in listing && isFile(x)
  {
    var r := FilesOf(listing, isFile);
    assert FilesKept(r, listing, isFile);
    assert x in r <==> multiset(r)[x] > 0;
    assert x in listing <==> multiset(listing)[x] > 0;
  }

  /** `x` goes before the first file whose key is not smaller than its own. */
  function Insert(x: string, s: seq<string>): (r: seq<string>)
    ensures |r| == |s| + 1 && multiset(r) == multiset(s) + multiset{x}
    ensures r[0] == x || (s != [] && r[0] == s[0])
  {
    if s == [] then [x]
    else if KeyLess(NaturalSortKey(s[0]), NaturalSortKey(x)) then
      assert s == [s[0]] + s[1..];
      [s[0]] + Insert(x, s[1..])
    else [x] + s
  }

  /** `sorted(files, key=natural_sort_key)`: a stable sort by the key. */
  function SortedNaturally(files: seq<string>): (r: seq<string>)
    ensures multiset(r) == multiset(files)
  {
    if files == [] then []
    else
      assert files == [files[0]] + files[1..];
      Insert(files[0], SortedNaturally(files[1..]))
  }

  /** No file's key is smaller than its predecessor's. */
  predicate OrderedByKey(s: seq<string>)
  {
    forall k :: 0 < k < |s| ==> !KeyLess(NaturalSortKey(s[k]), NaturalSortKey(s[k - 1]))
  }

  lemma {:induction false} InsertOrdered(x: string, s: seq<string>)
    requires OrderedByKey(s)
    ensures OrderedByKey(Insert(x, s))
  {
    if s != [] && KeyLess(NaturalSortKey(s[0]), NaturalSortKey(x)) {
      InsertOrdered(x, s[1..]);
      KeyLessAsymmetric(NaturalSortKey(s[0]), NaturalSortKey(x));
      var r := Insert(x, s);
      assert r[1..] == Insert(x, s[1..]);
    }
  }

  lemma {:induction false} SortedNaturallyOrdered(files: seq<string>)
    ensures OrderedByKey(SortedNaturally(files))
  {
    if files != [] {
      SortedNaturallyOrdered(files[1..]);
      InsertOrdered(files[0], SortedNaturally(files[1..]));
    }
  }

  function NotADirectory(folderPath: string): PyError
  {
    ValueError("The provided path '" + folderPath + "' is not a valid directory.")
  }

  /** The folder's files in natural order, or ValueError when the path is no directory. */
  function SortFilesNaturally(folderPath: string, isDir: bool, listing: seq<string>, isFile: string -> bool)
    : (r: Result<seq<string>>)
    ensures r.Err? <==> !isDir
    ensures r.Err? ==> r.error == NotADirectory(folderPath)
    ensures r.Ok? ==> multiset(r.value) == multiset(FilesOf(listing, isFile))
  {
    if !isDir then Err(NotADirectory(folderPath))
    else Ok(SortedNaturally(FilesOf(listing, isFile)))
  }

  /** The sorted listing holds each file once as often as the listing does, in key order. */
  lemma SortFilesNaturallyOrdered(folderPath: string, listing: seq<string>, isFile: string -> bool)
    ensures var r := SortFilesNaturally(folderPath, true, listing, isFile);
      r.Ok? && OrderedByKey(r.value) && forall k :: 0 <= k < |r.value| ==> isFile(r.value[k])
  {
    var files := FilesOf(listing, isFile);
    SortedNaturallyOrdered(files);
    var r := SortedNaturally(files);
    forall k | 0 <= k < |r|
      ensures isFile(r[k])
    {
      assert r[k] in multiset(files);
    }
  }

  // ---------------------------------------------------------------------
  // `rename_images` and `rename_labels`

  datatype Rename = Rename(source: string, target: string)

  function Target(path: string, n: int, ext: string): string
  {
    path + "image" + IntToString(n) + ext
  }

  /** Different numbers give different target names. */
  lemma TargetInjective(path: string, m: int, n: int, ext: string)
    requires Target(path, m, ext) == Target(path, n, ext)
    ensures m == n
  {
    var p := path + "image";
    var a, b := IntToString(m), IntToString(n);
    assert Target(path, m, ext) == p + (a + ext) && Target(path, n, ext) == p + (b + ext);
    assert a + ext == Target(path, m, ext)[|p|..];
    assert b + ext == Target(path, n, ext)[|p|..];
    assert a == (a + ext)[..|a|] && b == (b + ext)[..|b|];
    IntToStringInjective(m, n);
  }

  /** The renames of the sorted file names `data`, numbered from `i` on: the k-th becomes `image<i + k><ext>`. */
  function Renames(path: string, data: seq<string>, i: int, ext: string): (r: seq<Rename>)
    ensures |r| == |data|
    ensures forall k :: 0 <= k < |data| ==> r[k] == Rename(path + data[k], Target(path, i + k, ext))
  {
    seq(|data|, k requires 0 <= k < |data| => Rename(path + data[k], Target(path, i + k, ext)))
  }

  /** `for d in data: os.rename(path + d, path + "image" + str(i) + ext); i = i + 1`. */
  method RenameEach(path: string, data: seq<string>, i: int, ext: string) returns (renames: seq<Rename>)
    ensures renames == Renames(path, data, i, ext)
  {
    ghost var spec := Renames(path, data, i, ext);
    renames := [];
    var n := i;
    for k := 0 to |data|
      invariant n == i + k
      invariant renames == spec[..k]
    {
      assert spec[..k + 1] == spec[..k] + [spec[k]];
      renames := renames + [Rename(path + data[k], Target(path, n, ext))];
      n := n + 1;
    }
    assert spec[..|data|] == spec;
  }

  /** The shared body of `rename_images` and `rename_labels`, with the extension as a parameter: sort the folder, then rename. */
  method RenameSorted(path: string, isDir: bool, listing: seq<string>, isFile: string -> bool, i: int, ext: string)
    returns (r: Result<seq<Rename>>)
    ensures r.Err? <==> !isDir
    ensures r.Err? ==> r.error == NotADirectory(path)
    ensures r.Ok? ==> r.value == Renames(path, SortFilesNaturally(path, isDir, listing, isFile).value, i, ext)
  {
    var sorted := SortFilesNaturally(path, isDir, listing, isFile);
    if sorted.Err? {
      return Err(sorted.error);
    }
    var renames := RenameEach(path, sorted.value, i, ext);
    return Ok(renames);
  }

  /** `rename_images`: the sorted files become `image<i>.jpg`, `image<i + 1>.jpg`, ... */
  method RenameImages(path: string, isDir: bool, listing: seq<string>, isFile: string -> bool, i: int)
    returns (r: Result<seq<Rename>>)
    ensures r.Err? <==> !isDir
    ensures r.Ok? ==>
      var data := SortFilesNaturally(path, isDir, listing, isFile).value;
      |r.value| == |data| &&
      forall k :: 0 <= k < |data| ==> r.value[k] == Rename(path + data[k], Target(path, i + k, ".jpg"))
  {
    r := RenameSorted(path, isDir, listing, isFile, i, ".jpg");
  }

  /** `rename_labels`: the sorted files become `image<i>.txt`, `image<i + 1>.txt`, ... */
  method RenameLabels(path: string, isDir: bool, listing: seq<string>, isFile: string -> bool, i: int)
    returns (r: Result<seq<Rename>>)
    ensures r.Err? <==> !isDir
    ensures r.Ok? ==>
      var data := SortFilesNaturally(path, isDir, listing, isFile).value;
      |r.value| == |data| &&
      forall k :: 0 <= k < |data| ==> r.value[k] == Rename(path + data[k], Target(path, i + k, ".txt"))
  {
    r := RenameSorted(path, isDir, listing, isFile, i, ".txt");
  }

  /** Two different positions get different targets. */
  lemma RenameTargetsDiffer(path: string, data: seq<string>, i: int, ext: string, a: int, b: int)
    requires 0 <= a < b < |data|
    ensures Renames(path, data, i, ext)[a].target != Renames(path, data, i, ext)[b].target
  {
    if Target(path, i + a, ext) == Target(path, i + b, ext) {
      TargetInjective(path, i + a, i + b, ext);
    }
  }

  /** No two renames share a target. */
  lemma RenameTargetsDistinct(path: string, data: seq<string>, i: int, ext: string)
    ensures var r := Renames(path, data, i, ext);
      forall a, b :: 0 <= a < b < |r| ==> r[a].target != r[b].target
  {
    forall a, b | 0 <= a < b < |data|
      ensures Renames(path, data, i, ext)[a].target != Renames(path, data, i, ext)[b].target
    {
      RenameTargetsDiffer(path, data, i, ext, a, b);
    }
  }

  /** An element of a sequence is in every sequence with the same elements. */
  lemma InSameMultiset(data: seq<string>, files: seq<string>, a: int)
    requires multiset(data) == multiset(files) && 0 <= a < |data|
    ensures data[a] in files
  {
    assert data[a] in multiset(files);
  }

  /**
   * Every file of the folder is renamed exactly once, and nothing else is:
   * the sorted names are the folder's files, and the `a`-th rename moves the
   * `a`-th of them.
   */
  lemma RenameSourcesAreFiles(path: string, listing: seq<string>, isFile: string -> bool, i: int, ext: string)
    ensures var data := SortFilesNaturally(path, true, listing, isFile).value;
      multiset(data) == multiset(FilesOf(listing, isFile))
    ensures var data := SortFilesNaturally(path, true, listing, isFile).value;
      var r := Renames(path, data, i, ext);
      forall a :: 0 <= a < |r| ==> r[a].source == path + data[a] && data[a] in FilesOf(listing, isFile)
  {
    var data := SortFilesNaturally(path, true, listing, isFile).value;
    forall a | 0 <= a < |data|
      ensures Renames(path, data, i, ext)[a].source == path + data[a] && data[a] in FilesOf(listing, isFile)
    {
      InSameMultiset(data, FilesOf(listing, isFile), a);
    }
  }
}
