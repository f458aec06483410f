/** The bytes fed to the tree digests. */
module TreeDigest {
  import opened Utf8
  import opened Wrappers
  import Crlf
  import Order
  import Segments
  import Utf8Order

  const PATH_WIDTH := 4

  const CONTENT_WIDTH := 8

  /** The files of a tree: the content under each relative path. */
  type Tree = map<string, Bytes>

  function Range(width: nat): (n: nat)
    ensures n >= 1
  {
    if width == 0 then 1 else 256 * Range(width - 1)
  }

  function BigEndian(n: nat, width: nat): (b: Bytes)
    requires n < Range(width)
    ensures |b| == width
  {
    if width == 0 then [] else BigEndian(n / 256, width - 1) + [n % 256]
  }

  function Fold(content: Bytes): Bytes
  {
    Crlf.Fold(content, 13, 10)
  }

  /** Whether the two lengths fit their fields; otherwise the source overflows. */
  ghost predicate Fits(path: string, content: Bytes)
  {
    |Encode(path)| < Range(PATH_WIDTH) && |Fold(content)| < Range(CONTENT_WIDTH)
  }

  ghost predicate AllFit(names: seq<string>, tree: Tree)
  {
    forall i :: 0 <= i < |names| ==> names[i] in tree && Fits(names[i], tree[names[i]])
  }

  ghost function Framed(b: Bytes, width: nat): Bytes
    requires |b| < Range(width)
  {
    BigEndian(|b|, width) + b
  }

  ghost function Frame(path: string, content: Bytes): (b: Bytes)
    requires Fits(path, content)
    ensures b != []
  {
    assert |BigEndian(|Encode(path)|, PATH_WIDTH)| == 4;
    Framed(Encode(path), PATH_WIDTH) + Framed(Fold(content), CONTENT_WIDTH)
  }

  /** The bytes hashed for the files in the order of `names`. */
  ghost function Stream(names: seq<string>, tree: Tree): Bytes
    requires AllFit(names, tree)
  {
    if names == [] then [] else Frame(names[0], tree[names[0]]) + Stream(names[1..], tree)
  }

  lemma {:induction false} StreamAppend(names: seq<string>, name: string, tree: Tree)
    requires AllFit(names, tree) && name in tree && Fits(name, tree[name])
    ensures AllFit(names + [name], tree)
    ensures Stream(names + [name], tree) == Stream(names, tree) + Frame(name, tree[name])
  {
    hide Frame, Fits;
    if names == [] {
      assert Stream([name][1..], tree) == [];
    } else {
      assert (names + [name])[1..] == names[1..] + [name];
      StreamAppend(names[1..], name, tree);
      Associative(Frame(names[0], tree[names[0]]), Stream(names[1..], tree), Frame(name, tree[name]));
    }
  }

  lemma {:induction false} BigEndianInjective(n: nat, m: nat, width: nat)
    requires n < Range(width) && m < Range(width) && BigEndian(n, width) == BigEndian(m, width)
    ensures n == m
  {
    if width > 0 {
      var a, b := BigEndian(n, width), BigEndian(m, width);
      assert a[..width - 1] == BigEndian(n / 256, width - 1) && b[..width - 1] == BigEndian(m / 256, width - 1);
      assert a[width - 1] == n % 256 && b[width - 1] == m % 256;
      BigEndianInjective(n / 256, m / 256, width - 1);
    }
  }

  /** Most significant byte first: a smaller number's field is below a larger one's where they first differ. */
  lemma {:induction false} FieldsOrdered(n: nat, m: nat, width: nat)
    requires n < m < Range(width)
    ensures exists k :: 0 <= k < width && BigEndian(n, width)[..k] == BigEndian(m, width)[..k]
                        && BigEndian(n, width)[k] < BigEndian(m, width)[k]
  {
    if n / 256 == m / 256 {
      assert BigEndian(n, width)[..width - 1] == BigEndian(m, width)[..width - 1];
    } else {
      var a, b := BigEndian(n / 256, width - 1), BigEndian(m / 256, width - 1);
      FieldsOrdered(n / 256, m / 256, width - 1);
      var k :| 0 <= k < width - 1 && a[..k] == b[..k] && a[k] < b[k];
      assert BigEndian(n, width)[..k] == a[..k] && BigEndian(m, width)[..k] == b[..k];
    }
  }

  lemma RangeOf()
    ensures Range(4) == 0x1_0000_0000 && Range(8) == 0x1_0000_0000_0000_0000
  {
    assert Range(1) == 256 && Range(2) == 0x1_0000 && Range(3) == 0x100_0000;
    assert Range(5) == 256 * Range(4) && Range(6) == 256 * Range(5) && Range(7) == 256 * Range(6);
  }

  /** What is hashed for one file: four bytes of length, the path, eight bytes of length, the folded content. */
  lemma {:induction false} FrameLayout(path: string, content: Bytes)
    ensures var p, c := Encode(path), Crlf.Fold(content, 13, 10);
            && (Fits(path, content) <==> |p| < 0x1_0000_0000 && |c| < 0x1_0000_0000_0000_0000)
            && (Fits(path, content) ==>
                  && |p| < Range(4) && |c| < Range(8)
                  && Frame(path, content) == BigEndian(|p|, 4) + p + BigEndian(|c|, 8) + c)
  {
    RangeOf();
    if Fits(path, content) {
      var p, c := Encode(path), Crlf.Fold(content, 13, 10);
      Associative(BigEndian(|p|, 4) + p, BigEndian(|c|, 8), c);
    }
  }

  lemma CutBoth(a: Bytes, x: Bytes, b: Bytes, y: Bytes)
    requires a + x == b + y && |a| == |b|
    ensures a == b && x == y
  {
    assert (a + x)[..|a|] == a && (b + y)[..|b|] == b;
    assert (a + x)[|a|..] == x && (b + y)[|b|..] == y;
  }

  /** The length prefix tells where a field ends, so what follows cannot be mistaken for it. */
  lemma {:induction false} FieldsInjective(a: Bytes, x: Bytes, b: Bytes, y: Bytes, width: nat)
    requires |a| < Range(width) && |b| < Range(width)
    requires Framed(a, width) + x == Framed(b, width) + y
    ensures a == b && x == y
  {
    Associative(BigEndian(|a|, width), a, x);
    Associative(BigEndian(|b|, width), b, y);
    CutBoth(BigEndian(|a|, width), a + x, BigEndian(|b|, width), b + y);
    BigEndianInjective(|a|, |b|, width);
    CutBoth(a, x, b, y);
  }

  /** A frame shows where it ends and what it frames. */
  lemma FrameInjective(path: string, content: Bytes, x: Bytes, otherPath: string, otherContent: Bytes, y: Bytes)
    requires Fits(path, content) && Fits(otherPath, otherContent)
    requires Frame(path, content) + x == Frame(otherPath, otherContent) + y
    ensures path == otherPath && Fold(content) == Fold(otherContent) && x == y
  {
    hide Fold, Encode, Framed;
    var c, d := Framed(Fold(content), CONTENT_WIDTH), Framed(Fold(otherContent), CONTENT_WIDTH);
    Associative(Framed(Encode(path), PATH_WIDTH), c, x);
    Associative(Framed(Encode(otherPath), PATH_WIDTH), d, y);
    FieldsInjective(Encode(path), c + x, Encode(otherPath), d + y, PATH_WIDTH);
    FieldsInjective(Fold(content), x, Fold(otherContent), y, CONTENT_WIDTH);
    DecodeEncoded(path);
    DecodeEncoded(otherPath);
  }

  /** Equal bytes come from the same paths in the same order with the same folded contents. */
  lemma {:induction false} StreamInjective(names: seq<string>, tree: Tree, others: seq<string>, other: Tree)
    requires AllFit(names, tree) && AllFit(others, other)
    requires Stream(names, tree) == Stream(others, other)
    ensures names == others
    ensures forall name :: name in names ==> Fold(tree[name]) == Fold(other[name])
  {
    hide Fits, Fold, Frame;
    if names != [] && others != [] {
      FrameInjective(names[0], tree[names[0]], Stream(names[1..], tree),
                     others[0], other[others[0]], Stream(others[1..], other));
      StreamInjective(names[1..], tree, others[1..], other);
      assert names == [names[0]] + names[1..] && others == [others[0]] + others[1..];
    }
  }

  /** The digest loop over files already in order: the bytes hashed, or nothing where a length overflows its field. */
  method Feed(names: seq<string>, tree: Tree) returns (fed: Option<Bytes>)
    requires forall name :: name in names ==> name in tree
    ensures fed.Some? <==> AllFit(names, tree)
    ensures fed.Some? ==> fed.value == Stream(names, tree)
  {
    hide Encode, Fold, Stream, Range, BigEndian;
    var digest: Bytes := [];
    assert Stream([], tree) == [] by { NothingFed(tree); }
    for i := 0 to |names|
      invariant AllFit(names[..i], tree)
      invariant digest == Stream(names[..i], tree)
    {
      assert names[..i + 1] == names[..i] + [names[i]];
      var relative := Encode(names[i]);
      var content := Fold(tree[names[i]]);
      ghost var before := digest;
      if |relative| >= Range(PATH_WIDTH) {
        return None;
      }
      digest := digest + BigEndian(|relative|, PATH_WIDTH);
      digest := digest + relative;
      if |content| >= Range(CONTENT_WIDTH) {
        return None;
      }
      digest := digest + BigEndian(|content|, CONTENT_WIDTH);
      digest := digest + content;
      StreamAppend(names[..i], names[i], tree);
      FourParts(before, BigEndian(|relative|, PATH_WIDTH), relative, BigEndian(|content|, CONTENT_WIDTH), content);
    }
    assert names[..|names|] == names;
    fed := Some(digest);
  }

  lemma {:induction false} NothingFed(tree: Tree)
    ensures Stream([], tree) == []
  {
  }

  lemma FourParts(before: Bytes, a: Bytes, b: Bytes, c: Bytes, d: Bytes)
    ensures before + a + b + c + d == before + ((a + b) + (c + d))
  {
  }

  // ---------------------------------------------------------------- whole trees

  ghost predicate TreeFits(tree: Tree)
  {
    forall name :: name in tree ==> Fits(name, tree[name])
  }

  /** `names` lists the members of `s`, each once. */
  ghost predicate Lists(names: seq<string>, s: set<string>)
  {
    |names| == |s| && Order.Members(names) == s
  }

  /** In increasing order of the encoded paths. */
  ghost predicate ByBytes(names: seq<string>)
  {
    forall i, j :: 0 <= i < j < |names| ==> Utf8Order.BytesLess(Encode(names[i]), Encode(names[j]))
  }

  /** Since the encoding keeps the order, these are the paths in increasing order of their characters. */
  lemma BytesAreCharacters(names: seq<string>)
    ensures ByBytes(names) <==> Order.Increasing(names)
  {
    hide Encode, Utf8Order.BytesLess, Order.StrLess;
    forall i, j | 0 <= i < j < |names|
      ensures Utf8Order.BytesLess(Encode(names[i]), Encode(names[j])) <==> Order.StrLess(names[i], names[j])
    {
      Utf8Order.SameOrder(names[i], names[j]);
    }
  }

  ghost predicate IsTreeListing(names: seq<string>, tree: Tree)
  {
    Lists(names, tree.Keys) && ByBytes(names)
  }

  /** The bytes hashed for a tree, whose files are taken in increasing order of their encoded paths. */
  ghost predicate IsTreeStream(tree: Tree, fed: Bytes)
    requires TreeFits(tree)
  {
    exists names :: IsTreeListing(names, tree) && AllFit(names, tree) && fed == Stream(names, tree)
  }

  /** Two trees that differ at most in how their lines end. */
  ghost predicate SameFolded(tree: Tree, other: Tree)
  {
    && tree.Keys == other.Keys
    && forall name :: name in tree ==> Fold(tree[name]) == Fold(other[name])
  }

  method ComputeTree(tree: Tree) returns (fed: Option<Bytes>)
    ensures fed.Some? <==> TreeFits(tree)
    ensures fed.Some? ==> IsTreeStream(tree, fed.value)
  {
    hide Fits, Stream, Order.Increasing, ByBytes;
    var names := Order.SortedNames(tree.Keys);
    assert forall name :: name in names <==> name in Order.Members(names);
    BytesAreCharacters(names);
    fed := Feed(names, tree);
    assert fed.Some? ==> IsTreeListing(names, tree);
  }

  lemma {:induction false} FoldedStream(names: seq<string>, tree: Tree, other: Tree)
    requires AllFit(names, tree) && AllFit(names, other)
    requires forall name :: name in names ==> Fold(tree[name]) == Fold(other[name])
    ensures Stream(names, tree) == Stream(names, other)
  {
    if names != [] {
      FoldedStream(names[1..], tree, other);
    }
  }

  /** The digest tells trees apart exactly when they differ in more than line endings. */
  lemma TreesAgree(tree: Tree, other: Tree, fed: Bytes, otherFed: Bytes)
    requires TreeFits(tree) && TreeFits(other)
    requires IsTreeStream(tree, fed) && IsTreeStream(other, otherFed)
    ensures fed == otherFed <==> SameFolded(tree, other)
  {
    hide Fits, Fold, Stream, Order.Increasing, ByBytes;
    var names :| IsTreeListing(names, tree) && AllFit(names, tree) && fed == Stream(names, tree);
    var others :| IsTreeListing(others, other) && AllFit(others, other) && otherFed == Stream(others, other);
    BytesAreCharacters(names);
    BytesAreCharacters(others);
    assert forall name :: name in names <==> name in Order.Members(names);
    assert forall name :: name in others <==> name in Order.Members(others);
    if fed == otherFed {
      StreamInjective(names, tree, others, other);
    }
    if SameFolded(tree, other) {
      Order.IncreasingUnique(names, others);
      FoldedStream(names, tree, other);
    }
  }

  // ---------------------------------------------------------------- the order of the release manifest

  /** A path as the list of its components, which is what path objects are compared by. */
  function Parts(path: string): seq<string>
  {
    Segments.Split(path, '/')
  }

  predicate PartsLess(a: string, b: string)
  {
    Order.PathLess(Parts(a), Parts(b))
  }

  ghost predicate ByParts(names: seq<string>)
  {
    forall i, j :: 0 <= i < j < |names| ==> PartsLess(names[i], names[j])
  }

  ghost predicate IsReleaseListing(names: seq<string>, tree: Tree)
  {
    Lists(names, tree.Keys) && ByParts(names)
  }

  /** The bytes the release manifest hashes for a tree: its files in increasing order of components. */
  ghost predicate IsReleaseStream(tree: Tree, fed: Bytes)
    requires TreeFits(tree)
  {
    exists names :: IsReleaseListing(names, tree) && AllFit(names, tree) && fed == Stream(names, tree)
  }

  lemma PartsLessTotal(a: string, b: string)
    ensures PartsLess(a, b) || a == b || PartsLess(b, a)
  {
    hide Segments.Split, Segments.Join;
    Order.PathLessTotal(Parts(a), Parts(b));
    Segments.JoinSplit(a, '/');
    Segments.JoinSplit(b, '/');
  }

  lemma PartsLessOneWay(a: string, b: string)
    requires PartsLess(a, b)
    ensures !PartsLess(b, a) && a != b
  {
    hide Segments.Split, Order.PathLess;
    Order.PathLessIrreflexive(Parts(a));
    if PartsLess(b, a) {
      Order.PathLessTransitive(Parts(a), Parts(b), Parts(a));
    }
  }

  /** Where `x` goes into a sorted list. */
  lemma InsertedByParts(names: seq<string>, p: nat, x: string)
    requires ByParts(names) && p <= |names| && x !in names
    requires forall i :: 0 <= i < p ==> PartsLess(names[i], x)
    requires p < |names| ==> !PartsLess(names[p], x)
    ensures ByParts(names[..p] + [x] + names[p..])
  {
    hide Parts, Order.PathLess;
    forall i | p <= i < |names|
      ensures PartsLess(x, names[i])
    {
      PartsLessTotal(names[p], x);
      if p < i {
        Order.PathLessTransitive(Parts(x), Parts(names[p]), Parts(names[i]));
      }
    }
  }

  /** The paths sorted as path objects are. */
  method SortedPaths(s: set<string>) returns (names: seq<string>)
    ensures Lists(names, s) && ByParts(names)
  {
    hide PartsLess, ByParts;
    names := [];
    var rest := s;
    assert ByParts([]) by { NothingByParts(); }
    while rest != {}
      invariant ByParts(names)
      invariant rest <= s && |names| + |rest| == |s|
      invariant forall x :: x in names <==> x in s - rest
    {
      var x :| x in rest;
      var p := 0;
      while p < |names| && PartsLess(names[p], x)
        invariant p <= |names|
        invariant forall i :: 0 <= i < p ==> PartsLess(names[i], x)
      {
        p := p + 1;
      }
      InsertedByParts(names, p, x);
      ghost var before := names;
      assert before == before[..p] + before[p..];
      names := names[..p] + [x] + names[p..];
      assert forall y :: y in names <==> y == x || y in before;
      rest := rest - {x};
    }
  }

  lemma NothingByParts()
    ensures ByParts([])
  {
  }

  /** The release digest of a tree: the bytes hashed, or nothing where a length overflows its field. */
  method ReleaseTree(tree: Tree) returns (fed: Option<Bytes>)
    ensures fed.Some? <==> TreeFits(tree)
    ensures fed.Some? ==> IsReleaseStream(tree, fed.value)
  {
    hide Fits, Stream, ByParts;
    var names := SortedPaths(tree.Keys);
    assert forall name :: name in names <==> name in Order.Members(names);
    fed := Feed(names, tree);
    assert fed.Some? ==> IsReleaseListing(names, tree);
  }

  /** Two paths that agree up to a place where `a` has a slash and `b` a character below the slash. */
  ghost predicate Overtakes(a: string, b: string)
  {
    exists i :: PartAt(a, b, i)
  }

  ghost predicate PartAt(a: string, b: string, i: int)
  {
    0 <= i < |a| && i < |b| && a[..i] == b[..i] && a[i] == '/' && b[i] < '/'
  }

  lemma OvertakesBehind(a: string, b: string)
    requires a != "" && b != "" && a[0] == b[0]
    ensures Overtakes(a, b) <==> Overtakes(a[1..], b[1..])
  {
    if i :| PartAt(a, b, i) {
      assert a[1..][..i-1] == a[..i][1..] && b[1..][..i-1] == b[..i][1..];
      assert PartAt(a[1..], b[1..], i - 1);
    }
    if i :| PartAt(a[1..], b[1..], i) {
      assert a[..i+1] == [a[0]] + a[1..][..i] && b[..i+1] == [b[0]] + b[1..][..i];
      assert PartAt(a, b, i + 1);
    }
  }

  lemma OvertakesFirst(a: string, b: string)
    requires a == "" || b == "" || a[0] != b[0]
    ensures Overtakes(a, b) <==> a != "" && b != "" && a[0] == '/' && b[0] < '/'
  {
    if a != "" && b != "" && a[0] == '/' && b[0] < '/' {
      assert PartAt(a, b, 0);
    }
    if i :| PartAt(a, b, i) && i > 0 {
      SameFirst(a, b, i);
    }
  }

  lemma SameFirst(a: string, b: string, i: int)
    requires 0 < i <= |a| && i <= |b| && a[..i] == b[..i]
    ensures a[0] == b[0]
  {
    assert a[..i][0] == a[0];
  }

  lemma PartsBehind(a: string, b: string)
    requires a != "" && b != "" && a[0] == b[0]
    ensures PartsLess(a, b) <==> PartsLess(a[1..], b[1..])
  {
    var x, y := Parts(a[1..]), Parts(b[1..]);
    if a[0] == '/' {
      assert Parts(a)[1..] == x && Parts(b)[1..] == y;
      Order.StrLessIrreflexive("");
    } else {
      assert Parts(a) == [[a[0]] + x[0]] + x[1..] && Parts(b) == [[b[0]] + y[0]] + y[1..];
      assert Parts(a)[0][1..] == x[0] && Parts(b)[0][1..] == y[0];
    }
  }

  lemma {:induction false} PartsFirst(a: string, b: string)
    requires a == "" || b == "" || a[0] != b[0]
    ensures PartsLess(a, b) && Order.StrLess(b, a) <==> a != "" && b != "" && a[0] == '/' && b[0] < '/'
  {
    if b == "" {
      assert Parts(b)[0] == "" && Parts(b)[1..] == [];
      assert !Order.StrLess(Parts(a)[0], "") && !Order.PathLess(Parts(a)[1..], []);
    } else if a != "" && b[0] != '/' {
      assert Parts(b)[0] != "" && Parts(b)[0][0] == b[0];
      assert if a[0] == '/' then Parts(a)[0] == "" else Parts(a)[0] != "" && Parts(a)[0][0] == a[0];
    } else if a != "" {
      assert Parts(b)[0] == "" && Parts(a)[0] != "";
    }
  }

  /** Components and characters order two paths differently exactly when one overtakes the other. */
  lemma {:induction false} OrderedDifferently(a: string, b: string)
    ensures PartsLess(a, b) && Order.StrLess(b, a) <==> Overtakes(a, b)
  {
    hide PartsLess, Overtakes;
    if a != "" && b != "" && a[0] == b[0] {
      OvertakesBehind(a, b);
      PartsBehind(a, b);
      OrderedDifferently(a[1..], b[1..]);
    } else {
      OvertakesFirst(a, b);
      PartsFirst(a, b);
    }
  }

  ghost predicate NoneOvertakes(names: set<string>)
  {
    forall a, b :: a in names && b in names ==> !Overtakes(a, b)
  }

  /** In a list that is in both orders they agree. */
  lemma {:induction false} SameOrders(names: seq<string>, a: string, b: string)
    requires Order.Increasing(names) && ByParts(names)
    requires a in names && b in names && PartsLess(a, b)
    ensures Order.StrLess(a, b)
  {
    hide PartsLess, Order.StrLess;
    var i :| 0 <= i < |names| && names[i] == a;
    var j :| 0 <= j < |names| && names[j] == b;
    PartsLessOneWay(a, b);
  }

  lemma SameListing(bytes: seq<string>, parts: seq<string>, s: set<string>)
    requires Order.Increasing(bytes) && Lists(bytes, s) && ByParts(parts) && Lists(parts, s)
    ensures bytes == parts <==> NoneOvertakes(s)
  {
    hide PartsLess, Overtakes, Order.StrLess;
    assert forall x :: (x in bytes <==> x in Order.Members(bytes)) && (x in parts <==> x in Order.Members(parts));
    if NoneOvertakes(s) {
      forall i, j | 0 <= i < j < |parts|
        ensures Order.StrLess(parts[i], parts[j])
      {
        assert parts[i] in parts && parts[j] in parts;
        PartsLessOneWay(parts[i], parts[j]);
        OrderedDifferently(parts[i], parts[j]);
        Order.StrLessTotal(parts[i], parts[j]);
      }
      Order.IncreasingUnique(bytes, parts);
    }
    if bytes == parts {
      forall a, b | a in s && b in s
        ensures !Overtakes(a, b)
      {
        OrderedDifferently(a, b);
        if PartsLess(a, b) {
          SameOrders(parts, a, b);
          Order.StrLessAsymmetric(a, b);
        }
      }
    }
  }

  /** The two digests hash the same bytes for a tree exactly when no path of it overtakes another. */
  lemma OrdersAgree(tree: Tree, fed: Bytes, released: Bytes)
    requires TreeFits(tree) && IsTreeStream(tree, fed) && IsReleaseStream(tree, released)
    ensures fed == released <==> NoneOvertakes(tree.Keys)
  {
    hide Fits, Stream, Order.Increasing, ByBytes, ByParts, NoneOvertakes, Lists;
    var bytes :| IsTreeListing(bytes, tree) && AllFit(bytes, tree) && fed == Stream(bytes, tree);
    var parts :| IsReleaseListing(parts, tree) && AllFit(parts, tree) && released == Stream(parts, tree);
    BytesAreCharacters(bytes);
    SameListing(bytes, parts, tree.Keys);
    if fed == released {
      StreamInjective(bytes, tree, parts, tree);
    }
  }

  /** A tree on which they differ: a directory beside one whose name goes on with a hyphen. */
  lemma OrdersDiffer(tree: Tree, fed: Bytes, released: Bytes)
    requires TreeFits(tree) && IsTreeStream(tree, fed) && IsReleaseStream(tree, released)
    requires "a/b" in tree && "a-b/x" in tree
    ensures fed != released
  {
    hide Fits, IsTreeStream, IsReleaseStream;
    OrdersAgree(tree, fed, released);
    assert "a/b"[..1] == "a-b/x"[..1];
    assert PartAt("a/b", "a-b/x", 1);
  }
}
