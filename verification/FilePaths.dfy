/** Paths: a root and the names of the directories below it, each prefix with its hash. */
module FilePaths {
  import opened Crcs

  datatype Platform = Linux | Windows {
    function Sep(): char { if Linux? then '/' else '\\' }
    function Inverted(): char { if Linux? then '\\' else '/' }
  }

  datatype SlashHandling = Remove | Add | Leave

  datatype Order = Parent | Child | Different | Equal

  /** The parts of a path, and for each part the hash of the path up to and including it. */
  datatype Path = Path(parts: seq<string>, crcs: seq<Crc>)

  // ------------------------------------------------------------------ normalizing

  /** `path` with all separators turned into those of the platform. */
  function Slashed(pl: Platform, path: string): (r: string)
    ensures |r| == |path|
    ensures forall i :: 0 <= i < |r| ==> r[i] == if path[i] == pl.Inverted() then pl.Sep() else path[i]
  {
    seq(|path|, i requires 0 <= i < |path| => if path[i] == pl.Inverted() then pl.Sep() else path[i])
  }

  predicate EndsIn(s: string, c: char) {
    |s| > 0 && s[|s| - 1] == c
  }

  function DropLast(s: string): string
    requires |s| > 0
  {
    s[..|s| - 1]
  }

  /** Without the separators at the end, but never empty. */
  function Trimmed(s: string, c: char): string {
    if |s| > 1 && EndsIn(s, c) then Trimmed(DropLast(s), c) else s
  }

  /** With at most one of the separators at the end. */
  function Thinned(s: string, c: char): string {
    if |s| > 1 && EndsIn(s, c) && s[|s| - 2] == c then Thinned(DropLast(s), c) else s
  }

  function Closed(s: string, c: char): string {
    if EndsIn(s, c) then s else s + [c]
  }

  function Normalized(pl: Platform, path: string, handling: SlashHandling): string {
    var s := Slashed(pl, path);
    match handling
    case Remove => Trimmed(s, pl.Sep())
    case Add => Closed(Thinned(s, pl.Sep()), pl.Sep())
    case Leave => s
  }

  method Normalize(pl: Platform, path: string, handling: SlashHandling) returns (r: string)
    requires path != "" || !handling.Add?
    ensures r == Normalized(pl, path, handling)
    ensures forall s :: IsSlashed(pl, path, s) ==> IsFormOf(pl, s, r, handling)
  {
    NormalizedForm(pl, path, handling);
    r := Slashed(pl, path);
    if handling.Remove? {
      while |r| > 1 && r[|r| - 1] == pl.Sep()
        invariant Trimmed(r, pl.Sep()) == Normalized(pl, path, handling)
      {
        r := r[..|r| - 1];
      }
    } else if handling.Add? {
      while |r| > 1 && r[|r| - 1] == pl.Sep() && r[|r| - 2] == pl.Sep()
        invariant r != "" && Closed(Thinned(r, pl.Sep()), pl.Sep()) == Normalized(pl, path, handling)
      {
        r := r[..|r| - 1];
      }
      if r[|r| - 1] != pl.Sep() {
        r := r + [pl.Sep()];
      }
    }
  }

  lemma {:induction false} TrimmedIs(s: string, c: char)
    ensures Trimmed(s, c) <= s
    ensures s != "" ==> Trimmed(s, c) != ""
    ensures |Trimmed(s, c)| > 1 ==> !EndsIn(Trimmed(s, c), c)
    ensures forall i :: |Trimmed(s, c)| <= i < |s| ==> s[i] == c
  {
    if |s| > 1 && EndsIn(s, c) {
      TrimmedIs(DropLast(s), c);
    }
  }

  lemma {:induction false} ThinnedIs(s: string, c: char)
    ensures Thinned(s, c) <= s
    ensures s != "" ==> Thinned(s, c) != ""
    ensures |Thinned(s, c)| > 1 && EndsIn(Thinned(s, c), c) ==> Thinned(s, c)[|Thinned(s, c)| - 2] != c
    ensures EndsIn(s, c) <==> EndsIn(Thinned(s, c), c)
    ensures forall i :: |Thinned(s, c)| <= i < |s| ==> s[i] == c
  {
    if |s| > 1 && EndsIn(s, c) && s[|s| - 2] == c {
      ThinnedIs(DropLast(s), c);
    }
  }

  /** What `normalize` leaves alone: strings that are already in the wanted form. */
  predicate IsNormal(pl: Platform, s: string, handling: SlashHandling) {
    && (forall i :: 0 <= i < |s| ==> s[i] != pl.Inverted())
    && match handling
       case Remove => |s| > 1 ==> !EndsIn(s, pl.Sep())
       case Add => EndsIn(s, pl.Sep()) && (|s| > 1 ==> s[|s| - 2] != pl.Sep())
       case Leave => true
  }

  /** `normalize` brings every string into the wanted form, and strings in that form are exactly its fixed points. */
  lemma NormalizedIsNormal(pl: Platform, path: string, handling: SlashHandling)
    requires path != "" || !handling.Add?
    ensures IsNormal(pl, Normalized(pl, path, handling), handling)
    ensures Normalized(pl, path, handling) == path <==> IsNormal(pl, path, handling)
  {
    var s := Slashed(pl, path);
    TrimmedIs(s, pl.Sep());
    ThinnedIs(s, pl.Sep());
    if IsNormal(pl, path, handling) {
      assert s == path;
    }
  }

  /** `s` is `path` with all slashes and backslashes as they should be on the platform. */
  predicate IsSlashed(pl: Platform, path: string, s: string) {
    && |s| == |path|
    && forall i :: 0 <= i < |s| ==>
         s[i] == if path[i] == '/' || path[i] == '\\' then (if pl.Linux? then '/' else '\\') else path[i]
  }

  /** `r` is the normal form of `s`: separators at its end are left out, or a single one is there. */
  predicate IsFormOf(pl: Platform, s: string, r: string, handling: SlashHandling) {
    var sep := if pl.Linux? then '/' else '\\';
    match handling
    case Leave => r == s
    case Remove =>
      && r <= s && (forall i :: |r| <= i < |s| ==> s[i] == sep)
      && (s != "" ==> r != "") && (|r| > 1 ==> r[|r| - 1] != sep)
    case Add =>
      && r <= s + [sep] && (forall i :: |r| <= i < |s| ==> s[i] == sep)
      && r != "" && r[|r| - 1] == sep && (|r| > 1 ==> r[|r| - 2] != sep)
  }

  /** The result is the normal form of the text, and nothing else is. */
  lemma NormalizedExactly(pl: Platform, path: string, handling: SlashHandling, s: string, r: string)
    requires IsSlashed(pl, path, s) && (path != "" || !handling.Add?)
    ensures r == Normalized(pl, path, handling) <==> IsFormOf(pl, s, r, handling)
  {
    assert s == Slashed(pl, path);
    NormalizedIs(pl, path, handling, s);
    var n := Normalized(pl, path, handling);
    hide Normalized;
    if IsFormOf(pl, s, r, handling) {
      FormUnique(pl, s, r, n, handling);
    }
  }

  lemma NormalizedForm(pl: Platform, path: string, handling: SlashHandling)
    requires path != "" || !handling.Add?
    ensures forall s :: IsSlashed(pl, path, s) ==> IsFormOf(pl, s, Normalized(pl, path, handling), handling)
  {
    forall s | IsSlashed(pl, path, s)
      ensures IsFormOf(pl, s, Normalized(pl, path, handling), handling)
    {
      NormalizedExactly(pl, path, handling, s, Normalized(pl, path, handling));
    }
  }

  lemma NormalizedIs(pl: Platform, path: string, handling: SlashHandling, s: string)
    requires s == Slashed(pl, path) && (path != "" || !handling.Add?)
    ensures IsFormOf(pl, s, Normalized(pl, path, handling), handling)
  {
    TrimmedIs(s, pl.Sep());
    ThinnedIs(s, pl.Sep());
  }

  lemma FormUnique(pl: Platform, s: string, a: string, b: string, handling: SlashHandling)
    requires IsFormOf(pl, s, a, handling) && IsFormOf(pl, s, b, handling)
    ensures a == b
  {
    var sep := if pl.Linux? then '/' else '\\';
    var text := if handling.Add? then s + [sep] else s;
    assert a <= text && b <= text;
    if |a| < |b| {
      FormShorter(pl, s, a, b, handling);
    } else if |b| < |a| {
      FormShorter(pl, s, b, a, handling);
    }
  }

  lemma FormShorter(pl: Platform, s: string, a: string, b: string, handling: SlashHandling)
    requires IsFormOf(pl, s, a, handling) && IsFormOf(pl, s, b, handling)
    ensures |a| >= |b|
  {
  }

  lemma NormalizeIdempotent(pl: Platform, path: string, handling: SlashHandling)
    requires path != "" || !handling.Add?
    ensures Normalized(pl, Normalized(pl, path, handling), handling) == Normalized(pl, path, handling)
  {
    NormalizedIsNormal(pl, path, handling);
    NormalizedIsNormal(pl, Normalized(pl, path, handling), handling);
  }

  // --------------------------------------------------------------- parts of a path

  /** A part without the separator at its end. */
  function Bare(pl: Platform, part: string): string {
    if EndsIn(part, pl.Sep()) then DropLast(part) else part
  }

  function Concat(parts: seq<string>): string {
    if parts == [] then "" else parts[0] + Concat(parts[1..])
  }

  /** The position of the first `c`, or the length when there is none. */
  function Find(s: string, c: char): (k: nat)
    ensures k <= |s| && c !in s[..k] && (k < |s| ==> s[k] == c)
  {
    if s == "" || s[0] == c then 0 else 1 + Find(s[1..], c)
  }

  /** `s` cut after each separator. */
  function Split(s: string, c: char): seq<string>
    decreases |s|
  {
    var k := Find(s, c);
    if s == "" then [] else if k == |s| then [s] else [s[..k + 1]] + Split(s[k + 1..], c)
  }

  /** The hashes of the prefixes that end in one of `parts`, after a prefix with hash `crc`. */
  function Hashes(pl: Platform, hash: string -> Crc, crc: Crc, parts: seq<string>): seq<Crc>
    decreases parts
  {
    if parts == [] then []
    else
      var next := Xor(crc, hash(Bare(pl, parts[0])));
      [next] + Hashes(pl, hash, next, parts[1..])
  }

  /** Every part is non-empty, and all but the last one are directories. */
  predicate WellFormed(pl: Platform, p: Path) {
    && p.parts != [] && |p.crcs| == |p.parts|
    && (forall i :: 0 <= i < |p.parts| ==> p.parts[i] != "")
    && (forall i :: 0 <= i < |p.parts| - 1 ==> EndsIn(p.parts[i], pl.Sep()))
  }

  /** Every prefix has the hash it should have. */
  ghost predicate WellHashed(pl: Platform, hash: string -> Crc, p: Path) {
    && p.parts != []
    && p.crcs == [hash(p.parts[0])] + Hashes(pl, hash, hash(p.parts[0]), p.parts[1..])
  }

  predicate IsDir(pl: Platform, p: Path)
    requires p.parts != []
  {
    EndsIn(p.parts[|p.parts| - 1], pl.Sep())
  }

  /** The path with one more part. */
  function Appended(p: Path, part: string, crc: Crc): Path
    requires p.crcs != []
  {
    Path(p.parts + [part], p.crcs + [Xor(p.crcs[|p.crcs| - 1], crc)])
  }

  function Up(p: Path): Path
    requires |p.parts| > 1 && |p.crcs| == |p.parts|
  {
    Path(p.parts[..|p.parts| - 1], p.crcs[..|p.crcs| - 1])
  }

  lemma {:induction false} ConcatJoin(a: seq<string>, b: seq<string>)
    ensures Concat(a + b) == Concat(a) + Concat(b)
  {
    if a == [] {
      assert a + b == b;
    } else {
      assert (a + b)[1..] == a[1..] + b;
      ConcatJoin(a[1..], b);
    }
  }

  lemma {:induction false} HashesJoin(pl: Platform, hash: string -> Crc, crc: Crc, a: seq<string>, part: string)
    ensures |Hashes(pl, hash, crc, a)| == |a|
    ensures Hashes(pl, hash, crc, a + [part]) ==
            Hashes(pl, hash, crc, a) + [Xor(([crc] + Hashes(pl, hash, crc, a))[|a|], hash(Bare(pl, part)))]
    decreases a
  {
    if a == [] {
      assert [part][1..] == [];
    } else {
      assert (a + [part])[1..] == a[1..] + [part];
      HashesJoin(pl, hash, Xor(crc, hash(Bare(pl, a[0]))), a[1..], part);
    }
  }

  /** Cutting a string after each separator and putting the pieces together again gives the string back. */
  lemma {:induction false} SplitConcat(s: string, c: char)
    ensures Concat(Split(s, c)) == s
    decreases |s|
  {
    var k := Find(s, c);
    if s != "" {
      if k == |s| {
        assert [s][1..] == [];
      } else {
        SplitConcat(s[k + 1..], c);
        assert s == s[..k + 1] + s[k + 1..];
      }
    }
  }

  predicate PieceOk(parts: seq<string>, c: char, i: nat)
    requires i < |parts|
  {
    && parts[i] != ""
    && (if EndsIn(parts[i], c) then c !in DropLast(parts[i]) else c !in parts[i] && i == |parts| - 1)
  }

  /** Directory names closed by the separator, and perhaps a last name that is not. */
  predicate Pieces(parts: seq<string>, c: char) {
    forall i {:trigger PieceOk(parts, c, i)} :: 0 <= i < |parts| ==> PieceOk(parts, c, i)
  }

  lemma {:induction false} ConcatSplit(parts: seq<string>, c: char)
    requires Pieces(parts, c)
    ensures Split(Concat(parts), c) == parts
  {
    hide *;
    if parts == [] {
      NoPieces(c);
    } else {
      FirstPiece(parts, c);
      ConcatSplit(parts[1..], c);
      assert parts == [parts[0]] + parts[1..];
      if EndsIn(parts[0], c) {
        SplitFirst(parts[0], Concat(parts[1..]), c);
      } else {
        SplitNone(parts[0], c);
      }
    }
  }

  lemma NoPieces(c: char)
    ensures Split(Concat([]), c) == []
  {
  }

  lemma FirstPiece(parts: seq<string>, c: char)
    requires Pieces(parts, c) && parts != []
    ensures Pieces(parts[1..], c) && Concat(parts) == parts[0] + Concat(parts[1..]) && parts[0] != ""
    ensures if EndsIn(parts[0], c) then c !in DropLast(parts[0])
            else c !in parts[0] && Concat(parts) == parts[0] && parts == [parts[0]]
  {
    forall i | 0 <= i < |parts[1..]|
      ensures PieceOk(parts[1..], c, i)
    {
      assert PieceOk(parts, c, i + 1);
    }
    assert PieceOk(parts, c, 0);
    if |parts| == 1 {
      assert Concat(parts[1..]) == "" && parts[0] + "" == parts[0];
    }
  }

  lemma SplitFirst(first: string, rest: string, c: char)
    requires EndsIn(first, c) && c !in DropLast(first)
    ensures Split(first + rest, c) == [first] + Split(rest, c)
  {
    var s := first + rest;
    assert s[..|first| - 1] == DropLast(first);
    FindAt(s, c, |first| - 1);
    assert s[..|first|] == first && s[|first|..] == rest;
    hide Find;
  }

  lemma SplitNone(s: string, c: char)
    requires s != "" && c !in s
    ensures Split(s, c) == [s]
  {
    hide Find;
    assert forall i :: 0 <= i < |s| ==> s[i] in s;
  }

  lemma {:induction false} FindAt(s: string, c: char, k: nat)
    requires k < |s| && s[k] == c && c !in s[..k]
    ensures Find(s, c) == k
  {
    assert forall i :: 0 <= i < k ==> s[i] in s[..k];
    assert forall i :: 0 <= i < Find(s, c) ==> s[i] in s[..Find(s, c)];
  }

  /** The pieces of a string. */
  lemma {:induction false} SplitPieces(s: string, c: char)
    ensures Pieces(Split(s, c), c)
    decreases |s|
  {
    var k := Find(s, c);
    if s != "" && k == |s| {
      assert s[..k] == s;
    } else if s != "" {
      var first, rest := s[..k + 1], Split(s[k + 1..], c);
      SplitPieces(s[k + 1..], c);
      assert DropLast(first) == s[..k];
      forall i | 0 <= i < |[first] + rest|
        ensures PieceOk([first] + rest, c, i)
      {
        assert i > 0 ==> PieceOk(rest, c, i - 1);
      }
    }
  }

  // ------------------------------------------------------------------ comparing

  /** How two lists of parts relate by the prefix order. */
  function PrefixOrder(a: seq<string>, b: seq<string>): Order {
    if a == b then Equal else if a <= b then Parent else if b <= a then Child else Different
  }

  /** The source's comparison: hashes of equally long prefixes first, then the parts. */
  function Compared(a: Path, b: Path): Order
    requires a.parts != [] && b.parts != [] && |a.crcs| == |a.parts| && |b.crcs| == |b.parts|
  {
    var n := if |a.parts| < |b.parts| then |a.parts| else |b.parts|;
    if a.crcs[n - 1] != b.crcs[n - 1] then Different else PrefixOrder(a.parts, b.parts)
  }

  method Compare(a: Path, b: Path) returns (r: Order)
    requires a.parts != [] && b.parts != [] && |a.crcs| == |a.parts| && |b.crcs| == |b.parts|
    ensures r == Compared(a, b)
  {
    if |a.parts| < |b.parts| {
      if b.crcs[|a.parts| - 1] != a.crcs[|a.crcs| - 1] {
        return Different;
      }
      for i := 0 to |a.parts|
        invariant a.parts[..i] == b.parts[..i]
      {
        if a.parts[i] != b.parts[i] {
          return Different;
        }
      }
      return Parent;
    } else {
      if a.crcs[|b.parts| - 1] != b.crcs[|b.crcs| - 1] {
        return Different;
      }
      for i := 0 to |b.parts|
        invariant a.parts[..i] == b.parts[..i]
      {
        if a.parts[i] != b.parts[i] {
          return Different;
        }
      }
      assert a.parts[..|b.parts|] == b.parts;
      return if |a.parts| == |b.parts| then Equal else Child;
    }
  }

  /** The hashes of a prefix are a prefix of the hashes. */
  lemma {:induction false} HashesPrefix(pl: Platform, hash: string -> Crc, crc: Crc, a: seq<string>, b: seq<string>)
    ensures |Hashes(pl, hash, crc, a)| == |a|
    ensures Hashes(pl, hash, crc, a) <= Hashes(pl, hash, crc, a + b)
    decreases a
  {
    if a != [] {
      assert (a + b)[1..] == a[1..] + b;
      HashesPrefix(pl, hash, Xor(crc, hash(Bare(pl, a[0]))), a[1..], b);
    }
  }

  /** Whatever the hash function, the hashes of a prefix of a path are the prefix's own hashes. */
  lemma WellHashedPrefix(pl: Platform, hash: string -> Crc, a: Path, b: Path)
    requires WellHashed(pl, hash, a) && WellHashed(pl, hash, b) && a.parts <= b.parts
    ensures |a.crcs| == |a.parts| && |b.crcs| == |b.parts| && a.crcs <= b.crcs
  {
    var rest := b.parts[|a.parts|..];
    assert b.parts[1..] == a.parts[1..] + rest;
    HashesPrefix(pl, hash, hash(a.parts[0]), a.parts[1..], rest);
    HashesPrefix(pl, hash, hash(b.parts[0]), b.parts[1..], []);
    assert b.parts[1..] + [] == b.parts[1..];
  }

  /**
   The comparison that looks at the hashes first is exactly the prefix order on the parts,
   for every hash function and in spite of all collisions.
   */
  lemma ComparedIsPrefixOrder(pl: Platform, hash: string -> Crc, a: Path, b: Path)
    requires WellHashed(pl, hash, a) && WellHashed(pl, hash, b)
    ensures |a.crcs| == |a.parts| && |b.crcs| == |b.parts|
    ensures Compared(a, b) == PrefixOrder(a.parts, b.parts)
  {
    WellHashedPrefix(pl, hash, a, a);
    WellHashedPrefix(pl, hash, b, b);
    if a.parts <= b.parts {
      WellHashedPrefix(pl, hash, a, b);
    }
    if b.parts <= a.parts {
      WellHashedPrefix(pl, hash, b, a);
    }
  }

  function Reverse(o: Order): Order {
    match o
    case Parent => Child
    case Child => Parent
    case _ => o
  }

  /** The comparison is antisymmetric, and being a parent is transitive. */
  lemma ComparedIsOrder(pl: Platform, hash: string -> Crc, a: Path, b: Path, c: Path)
    requires WellHashed(pl, hash, a) && WellHashed(pl, hash, b) && WellHashed(pl, hash, c)
    ensures |a.crcs| == |a.parts| && |b.crcs| == |b.parts| && |c.crcs| == |c.parts|
    ensures Compared(b, a) == Reverse(Compared(a, b))
    ensures Compared(a, b) == Equal <==> a == b
    ensures Compared(a, b) == Parent && Compared(b, c) in {Parent, Equal} ==> Compared(a, c) == Parent
  {
    ComparedIsPrefixOrder(pl, hash, a, b);
    ComparedIsPrefixOrder(pl, hash, b, a);
    ComparedIsPrefixOrder(pl, hash, b, c);
    ComparedIsPrefixOrder(pl, hash, a, c);
  }

  // ---------------------------------------------------------------- the path object

  class FilePath {
    const platform: Platform
    const hash: string -> Crc
    var parts: seq<string>
    var pathCrcs: seq<Crc>

    ghost function Val(): Path
      reads this
    {
      Path(parts, pathCrcs)
    }

    ghost predicate Valid()
      reads this
    {
      WellFormed(platform, Val())
    }

    constructor Raw(platform: Platform, hash: string -> Crc, parts: seq<string>, pathCrcs: seq<Crc>)
      ensures this.platform == platform && this.hash == hash && Val() == Path(parts, pathCrcs)
    {
      this.platform := platform;
      this.hash := hash;
      this.parts := parts;
      this.pathCrcs := pathCrcs;
    }

    /** A path that is just a root; none when the root is empty. The hash is computed when `crc` is zero. */
    static method FromRoot(pl: Platform, hash: string -> Crc, root: string, crc: Crc) returns (r: FilePath?)
      ensures r == null <==> root == ""
      ensures r != null ==> fresh(r) && r.platform == pl && r.hash == hash && r.Valid()
      ensures r != null ==> r.Val() == RootPath(pl, hash, root, crc)
    {
      if root == "" {
        return null;
      }
      var normal := Normalize(pl, root, Add);
      NormalizedIsNormal(pl, root, Add);
      r := new FilePath.Raw(pl, hash, [normal], [if crc == Zero then hash(normal) else crc]);
    }

    /** The path that `path` spells below `root`; none when one is empty or `path` does not begin with `root`. */
    static method FromText(pl: Platform, hash: string -> Crc, path: string, root: string) returns (r: FilePath?)
      ensures r != null <==> Accepted(pl, path, root)
      ensures r != null ==> fresh(r) && r.platform == pl && r.hash == hash && r.Valid()
      ensures r != null ==> r.Val() == Parsed(pl, hash, path, root)
      ensures r != null ==> (IsDir(pl, r.Val()) <==> path[|path| - 1] == '/' || path[|path| - 1] == '\\')
    {
      if path == "" || root == "" {
        return null;
      }
      var isDir := path[|path| - 1] == pl.Sep() || path[|path| - 1] == pl.Inverted();
      var newPath := Normalize(pl, path, if isDir then Add else Remove);
      var newRoot := Normalize(pl, root, Add);
      if !(newRoot <= newPath) {
        return null;
      }
      ParsedIsWellFormed(pl, hash, path, root);
      ParsedDir(pl, hash, path, root);
      var parts, crcs := SplitBelow(pl, hash, newRoot, newPath[|newRoot|..]);
      r := new FilePath.Raw(pl, hash, parts, crcs);
    }

    /** The text of the path; a closing separator is left out on request. */
    method GetPath(addDirSlash: bool) returns (path: string)
      requires Valid()
      ensures path == if addDirSlash then Concat(parts) else Bare(platform, Concat(parts))
    {
      path := "";
      for i := 0 to |parts|
        invariant path + Concat(parts[i..]) == Concat(parts)
      {
        assert parts[i..][1..] == parts[i + 1..];
        path := path + parts[i];
      }
      if !addDirSlash && path[|path| - 1] == platform.Sep() {
        path := path[..|path| - 1];
      }
    }

    /** The last part, without its separator unless it is the root. */
    method GetName() returns (name: string)
      requires Valid()
      ensures name == if |parts| == 1 then parts[0] else Bare(platform, parts[|parts| - 1])
    {
      var last := parts[|parts| - 1];
      if |parts| == 1 || last[|last| - 1] != platform.Sep() {
        return last;
      }
      return last[..|last| - 1];
    }

    /** Adds a directory; refused when the name is empty or the path is that of a file. */
    method AddDir(name: string, crc: Crc) returns (ok: bool)
      requires Valid()
      modifies this
      ensures Valid() && ok == (name != "" && IsDir(platform, old(Val())))
      ensures Val() == if ok then WithDir(platform, hash, old(Val()), name, crc) else old(Val())
      ensures ok ==>
                parts == old(parts) + [if name[|name| - 1] == platform.Sep() then name else name + [platform.Sep()]]
    {
      if name == "" || !IsDir(platform, Path(parts, pathCrcs)) {
        return false;
      }
      var part := if name[|name| - 1] != platform.Sep() then name + [platform.Sep()] else name;
      parts := parts + [part];
      pathCrcs := pathCrcs + [Xor(pathCrcs[|pathCrcs| - 1], if crc == Zero then hash(name) else crc)];
      return true;
    }

    /** Adds a file; refused when the name is empty or the path is that of a file. */
    method AddFile(name: string, crc: Crc) returns (ok: bool)
      requires Valid()
      modifies this
      ensures Valid() && ok == (name != "" && IsDir(platform, old(Val())))
      ensures Val() == if ok then WithFile(hash, old(Val()), name, crc) else old(Val())
      ensures ok ==> parts == old(parts) + [name]
    {
      if name == "" || !IsDir(platform, Path(parts, pathCrcs)) {
        return false;
      }
      parts := parts + [name];
      pathCrcs := pathCrcs + [Xor(pathCrcs[|pathCrcs| - 1], if crc == Zero then hash(name) else crc)];
      return true;
    }

    /** Goes to the parent directory, unless the path is at its root. */
    method GoUp() returns (ok: bool)
      requires Valid()
      modifies this
      ensures Valid() && ok == (|old(parts)| > 1)
      ensures Val() == if ok then Up(old(Val())) else old(Val())
    {
      if |parts| <= 1 {
        return false;
      }
      parts := parts[..|parts| - 1];
      pathCrcs := pathCrcs[..|pathCrcs| - 1];
      return true;
    }

    method CompareTo(path: FilePath) returns (r: Order)
      requires Valid() && path.Valid()
      ensures r == Compared(Val(), path.Val())
    {
      r := Compare(Path(parts, pathCrcs), Path(path.parts, path.pathCrcs));
    }

    /** Drops the parts of `parentPath`; refused unless this path is below it. */
    method MakeRelativeTo(parentPath: FilePath) returns (ok: bool)
      requires Valid() && parentPath.Valid()
      modifies this
      ensures ok == (Compared(old(Val()), old(parentPath.Val())) == Child)
      ensures Valid()
      ensures ok ==> old(parentPath.parts) + parts == old(parts) && pathCrcs == old(pathCrcs)[|old(parentPath.parts)|..]
      ensures !ok ==> Val() == old(Val())
    {
      var state := CompareTo(parentPath);
      if state != Child {
        return false;
      }
      var n := |parentPath.parts|;
      parts := parts[n..];
      pathCrcs := pathCrcs[n..];
      return true;
    }

    /** Cuts what is left of the text after each separator, and hashes the prefixes on the way. */
    static method SplitBelow(pl: Platform, hash: string -> Crc, root: string, text: string)
      returns (parts: seq<string>, crcs: seq<Crc>)
      ensures parts == [root] + Split(text, pl.Sep())
      ensures crcs == [hash(root)] + Hashes(pl, hash, hash(root), Split(text, pl.Sep()))
    {
      hide *;
      parts, crcs := [root], [hash(root)];
      var newPath := text;
      while Find(newPath, pl.Sep()) < |newPath|
        invariant |parts| == |crcs| > 0
        invariant parts + Split(newPath, pl.Sep()) == [root] + Split(text, pl.Sep())
        invariant crcs + Hashes(pl, hash, crcs[|crcs| - 1], Split(newPath, pl.Sep())) ==
                  [hash(root)] + Hashes(pl, hash, hash(root), Split(text, pl.Sep()))
        decreases |newPath|
      {
        var pos := Find(newPath, pl.Sep());
        SplitStep(pl, hash, crcs[|crcs| - 1], newPath);
        var dirName := newPath[..pos + 1];
        parts := parts + [dirName];
        crcs := crcs + [Xor(crcs[|crcs| - 1], hash(newPath[..pos]))];
        newPath := newPath[pos + 1..];
      }
      SplitLast(pl, hash, crcs[|crcs| - 1], newPath);
      if newPath != "" {
        parts := parts + [newPath];
        crcs := crcs + [Xor(crcs[|crcs| - 1], hash(newPath))];
      }
    }
  }

  lemma SplitStep(pl: Platform, hash: string -> Crc, crc: Crc, text: string)
    requires Find(text, pl.Sep()) < |text|
    ensures var pos := Find(text, pl.Sep());
            var next := Xor(crc, hash(text[..pos]));
            && Split(text, pl.Sep()) == [text[..pos + 1]] + Split(text[pos + 1..], pl.Sep())
            && Hashes(pl, hash, crc, Split(text, pl.Sep())) ==
               [next] + Hashes(pl, hash, next, Split(text[pos + 1..], pl.Sep()))
  {
    var pos := Find(text, pl.Sep());
    assert Bare(pl, text[..pos + 1]) == text[..pos];
  }

  lemma SplitLast(pl: Platform, hash: string -> Crc, crc: Crc, text: string)
    requires Find(text, pl.Sep()) == |text|
    ensures Split(text, pl.Sep()) == if text == "" then [] else [text]
    ensures Hashes(pl, hash, crc, Split(text, pl.Sep())) == if text == "" then [] else [Xor(crc, hash(text))]
  {
    if text != "" {
      assert [text][1..] == [];
      assert text[..|text|] == text;
      assert forall i :: 0 <= i < |text| ==> text[i] in text;
    }
  }

  lemma ParsedIsWellFormed(pl: Platform, hash: string -> Crc, path: string, root: string)
    requires Accepted(pl, path, root)
    ensures WellFormed(pl, Parsed(pl, hash, path, root)) && WellHashed(pl, hash, Parsed(pl, hash, path, root))
  {
    var normal := Normalized(pl, root, Add);
    NormalizedIsNormal(pl, root, Add);
    SplitPieces(NormalText(pl, path)[|normal|..], pl.Sep());
    PartsWellFormed(pl, hash, normal, Split(NormalText(pl, path)[|normal|..], pl.Sep()));
  }

  lemma PartsWellFormed(pl: Platform, hash: string -> Crc, root: string, rest: seq<string>)
    requires EndsIn(root, pl.Sep()) && Pieces(rest, pl.Sep())
    ensures var p := Path([root] + rest, [hash(root)] + Hashes(pl, hash, hash(root), rest));
            WellFormed(pl, p) && WellHashed(pl, hash, p)
  {
    var parts := [root] + rest;
    assert parts[1..] == rest;
    HashesPrefix(pl, hash, hash(root), rest, []);
    forall i | 0 <= i < |parts|
      ensures parts[i] != "" && (i < |parts| - 1 ==> EndsIn(parts[i], pl.Sep()))
    {
      assert i > 0 ==> PieceOk(rest, pl.Sep(), i - 1);
    }
  }

  function RootPath(pl: Platform, hash: string -> Crc, root: string, crc: Crc): Path {
    var normal := Normalized(pl, root, Add);
    Path([normal], [if crc == Zero then hash(normal) else crc])
  }

  /** How the source normalizes the text of a path: what ends in a separator of either kind is a directory. */
  function NormalText(pl: Platform, path: string): string {
    Normalized(pl, path, if EndsIn(path, pl.Sep()) || EndsIn(path, pl.Inverted()) then Add else Remove)
  }

  /** An accepted text is that of a directory exactly if it ends in a slash or a backslash. */
  lemma ParsedDir(pl: Platform, hash: string -> Crc, path: string, root: string)
    requires Accepted(pl, path, root)
    ensures IsDir(pl, Parsed(pl, hash, path, root)) <==> path[|path| - 1] == '/' || path[|path| - 1] == '\\'
  {
    hide *;
    AcceptedText(pl, path, root);
    DirTextEnds(pl, path);
    ParsePrint(pl, hash, path, root);
    ParsedIsWellFormed(pl, hash, path, root);
    WellFormedEnds(pl, Parsed(pl, hash, path, root));
  }

  lemma AcceptedText(pl: Platform, path: string, root: string)
    requires Accepted(pl, path, root)
    ensures path != "" && root != ""
  {
  }

  lemma DirTextEnds(pl: Platform, path: string)
    requires path != ""
    ensures EndsIn(NormalText(pl, path), pl.Sep()) <==> path[|path| - 1] == '/' || path[|path| - 1] == '\\'
  {
    var s := Slashed(pl, path);
    TrimmedIs(s, pl.Sep());
    ThinnedIs(s, pl.Sep());
    hide Trimmed, Thinned;
    assert !EndsIn(s, pl.Sep()) ==> |Trimmed(s, pl.Sep())| == |s|;
  }

  lemma WellFormedEnds(pl: Platform, p: Path)
    requires WellFormed(pl, p)
    ensures p.parts != [] && (IsDir(pl, p) <==> EndsIn(Concat(p.parts), pl.Sep()))
  {
    ConcatLast(p.parts);
    hide Concat;
    var last := p.parts[|p.parts| - 1];
    assert last != "" && Concat(p.parts)[|Concat(p.parts)| - 1] == last[|last| - 1];
  }

  predicate Accepted(pl: Platform, path: string, root: string) {
    path != "" && root != "" && Normalized(pl, root, Add) <= NormalText(pl, path)
  }

  function Parsed(pl: Platform, hash: string -> Crc, path: string, root: string): Path
    requires Accepted(pl, path, root)
  {
    var normal := Normalized(pl, root, Add);
    var rest := Split(NormalText(pl, path)[|normal|..], pl.Sep());
    Path([normal] + rest, [hash(normal)] + Hashes(pl, hash, hash(normal), rest))
  }

  function WithDir(pl: Platform, hash: string -> Crc, p: Path, name: string, crc: Crc): Path
    requires p.crcs != []
  {
    Appended(p, Closed(name, pl.Sep()), if crc == Zero then hash(name) else crc)
  }

  function WithFile(hash: string -> Crc, p: Path, name: string, crc: Crc): Path
    requires p.crcs != []
  {
    Appended(p, name, if crc == Zero then hash(name) else crc)
  }

  // ------------------------------------------------- text and parts of a path agree

  lemma ConcatHead(first: string, rest: seq<string>)
    ensures Concat([first] + rest) == first + Concat(rest)
  {
    assert ([first] + rest)[1..] == rest;
  }

  lemma ParsedParts(pl: Platform, hash: string -> Crc, path: string, root: string)
    requires Accepted(pl, path, root)
    ensures Normalized(pl, root, Add) <= NormalText(pl, path)
    ensures Parsed(pl, hash, path, root).parts ==
            [Normalized(pl, root, Add)] + Split(NormalText(pl, path)[|Normalized(pl, root, Add)|..], pl.Sep())
  {
  }

  /** The text of a parsed path is the normalized text that was parsed. */
  lemma ParsePrint(pl: Platform, hash: string -> Crc, path: string, root: string)
    requires Accepted(pl, path, root)
    ensures Concat(Parsed(pl, hash, path, root).parts) == NormalText(pl, path)
  {
    hide *;
    ParsedParts(pl, hash, path, root);
    var normal := Normalized(pl, root, Add);
    var text := NormalText(pl, path)[|normal|..];
    SplitConcat(text, pl.Sep());
    ConcatHead(normal, Split(text, pl.Sep()));
  }

  /** A name that a file may have: the other separator is an ordinary character in it. */
  predicate IsName(pl: Platform, name: string) {
    name != "" && pl.Sep() !in name
  }

  predicate SeparatorFree(pl: Platform, name: string) {
    name != "" && pl.Sep() !in name && pl.Inverted() !in name
  }

  /** The root is normalized, names hold no separator of either kind, and the last name is not empty. */
  predicate Clean(pl: Platform, p: Path)
    requires p.parts != []
  {
    && IsNormal(pl, p.parts[0], Add)
    && Pieces(p.parts[1..], pl.Sep())
    && (forall i :: 0 <= i < |p.parts| ==> pl.Inverted() !in p.parts[i])
    && (|p.parts| > 1 ==> p.parts[|p.parts| - 1] != [pl.Sep()])
  }

  /** What adding names to a root keeps. */
  predicate Built(pl: Platform, p: Path)
    requires p.parts != []
  {
    && IsNormal(pl, p.parts[0], Add)
    && forall i :: 1 <= i < |p.parts| ==>
         && SeparatorFree(pl, Bare(pl, p.parts[i]))
         && (i < |p.parts| - 1 ==> EndsIn(p.parts[i], pl.Sep()))
  }

  lemma BuiltIsClean(pl: Platform, p: Path)
    requires p.parts != [] && Built(pl, p)
    ensures Clean(pl, p)
  {
    forall i | 0 <= i < |p.parts[1..]|
      ensures PieceOk(p.parts[1..], pl.Sep(), i)
    {
      assert p.parts[1..][i] == p.parts[i + 1];
    }
    forall i | 0 <= i < |p.parts|
      ensures pl.Inverted() !in p.parts[i]
    {
      if i > 0 {
        assert SeparatorFree(pl, Bare(pl, p.parts[i]));
      }
    }
  }

  /** Adding separator-free names with their hashes, or with none, keeps a path built and well hashed. */
  lemma AddKeepsBuilt(pl: Platform, hash: string -> Crc, p: Path, name: string, crc: Crc)
    requires WellFormed(pl, p) && WellHashed(pl, hash, p) && Built(pl, p) && IsDir(pl, p)
    requires SeparatorFree(pl, name) && crc in {Zero, hash(name)}
    ensures var q := WithDir(pl, hash, p, name, crc);
            WellFormed(pl, q) && WellHashed(pl, hash, q) && Built(pl, q) && IsDir(pl, q)
    ensures var q := WithFile(hash, p, name, crc);
            WellFormed(pl, q) && WellHashed(pl, hash, q) && Built(pl, q) && !IsDir(pl, q)
  {
    assert Closed(name, pl.Sep()) == name + [pl.Sep()];
    assert Bare(pl, name + [pl.Sep()]) == name && Bare(pl, name) == name;
    AppendHashed(pl, hash, p, name + [pl.Sep()]);
    AppendHashed(pl, hash, p, name);
  }

  lemma AppendHashed(pl: Platform, hash: string -> Crc, p: Path, part: string)
    requires WellHashed(pl, hash, p)
    ensures p.crcs != [] && WellHashed(pl, hash, Appended(p, part, hash(Bare(pl, part))))
  {
    assert (p.parts + [part])[1..] == p.parts[1..] + [part];
    HashesJoin(pl, hash, hash(p.parts[0]), p.parts[1..], part);
  }

  lemma ConcatLast(parts: seq<string>)
    requires parts != []
    ensures Concat(parts) == Concat(parts[..|parts| - 1]) + parts[|parts| - 1]
  {
    var last := [parts[|parts| - 1]];
    assert parts == parts[..|parts| - 1] + last;
    ConcatJoin(parts[..|parts| - 1], last);
    assert last[1..] == [];
  }

  lemma {:induction false} ConcatHas(parts: seq<string>, c: char)
    ensures c in Concat(parts) <==> exists i :: 0 <= i < |parts| && c in parts[i]
  {
    if parts != [] {
      ConcatHas(parts[1..], c);
      if c in Concat(parts[1..]) {
        var i :| 0 <= i < |parts[1..]| && c in parts[1..][i];
        assert c in parts[i + 1];
      }
      forall i | 0 <= i < |parts| && c in parts[i]
        ensures c in Concat(parts)
      {
        assert i > 0 ==> parts[i] == parts[1..][i - 1];
      }
    }
  }

  /** The text of a clean path is normal as it stands. */
  lemma CleanText(pl: Platform, p: Path)
    requires WellFormed(pl, p) && Clean(pl, p)
    ensures NormalText(pl, Concat(p.parts)) == Concat(p.parts) != ""
  {
    var text, last := Concat(p.parts), p.parts[|p.parts| - 1];
    ConcatHas(p.parts, pl.Inverted());
    ConcatLast(p.parts);
    NormalizedIsNormal(pl, text, Add);
    NormalizedIsNormal(pl, text, Remove);
    assert |p.parts| > 1 ==> PieceOk(p.parts[1..], pl.Sep(), |p.parts| - 2);
    if |last| > 1 {
      assert text[|text| - 1] == last[|last| - 1] && text[|text| - 2] == last[|last| - 2];
      assert |p.parts| > 1 && EndsIn(last, pl.Sep()) ==> DropLast(last)[|last| - 2] != pl.Sep();
    } else if |p.parts| == 1 {
      assert p.parts[..0] == [];
    }
    hide Normalized;
    assert forall i :: 0 <= i < |text| ==> text[i] in text;
  }

  /** A clean path is read back from its own text and root. */
  lemma PrintParse(pl: Platform, hash: string -> Crc, p: Path)
    requires WellFormed(pl, p) && WellHashed(pl, hash, p) && Clean(pl, p)
    ensures Accepted(pl, Concat(p.parts), p.parts[0])
    ensures Parsed(pl, hash, Concat(p.parts), p.parts[0]) == p
  {
    var root, rest := p.parts[0], p.parts[1..];
    CleanText(pl, p);
    NormalizedIsNormal(pl, root, Add);
    hide Normalized, NormalText, Clean;
    assert p.parts == [root] + rest;
    assert Concat(p.parts)[|root|..] == Concat(rest);
    assert Pieces(rest, pl.Sep()) by { CleanPieces(pl, p); }
    ConcatSplit(rest, pl.Sep());
  }

  lemma CleanPieces(pl: Platform, p: Path)
    requires p.parts != [] && Clean(pl, p)
    ensures Pieces(p.parts[1..], pl.Sep())
  {
  }

  lemma NormalTextIs(pl: Platform, text: string)
    requires text != ""
    ensures pl.Inverted() !in NormalText(pl, text)
    ensures var t := NormalText(pl, text);
            |t| > 1 && EndsIn(t, pl.Sep()) ==> t[|t| - 2] != pl.Sep()
  {
    NormalizedIsNormal(pl, text, Add);
    NormalizedIsNormal(pl, text, Remove);
  }

  /** A path in which the last name is empty has two separators at the end of its text. */
  lemma EmptyLast(pl: Platform, p: Path)
    requires WellFormed(pl, p) && |p.parts| > 1 && p.parts[|p.parts| - 1] == [pl.Sep()]
    ensures var t := Concat(p.parts);
            |t| > 1 && EndsIn(t, pl.Sep()) && t[|t| - 2] == pl.Sep()
  {
    var front := p.parts[..|p.parts| - 1];
    ConcatLast(p.parts);
    ConcatLast(front);
    assert EndsIn(front[|front| - 1], pl.Sep());
  }

  /** Only clean paths come out of the parser when it is given a path's own text and root. */
  lemma ParsedIsClean(pl: Platform, hash: string -> Crc, p: Path)
    requires WellFormed(pl, p)
    requires Accepted(pl, Concat(p.parts), p.parts[0]) && Parsed(pl, hash, Concat(p.parts), p.parts[0]) == p
    ensures Clean(pl, p)
  {
    hide *;
    WellFormedIs(pl, p);
    var text, root := Concat(p.parts), p.parts[0];
    AcceptedIs(pl, text, root);
    ParsedParts(pl, hash, text, root);
    ParsePrint(pl, hash, text, root);
    NormalizedIsNormal(pl, root, Add);
    NormalTextIs(pl, text);
    SplitPieces(NormalText(pl, text)[|root|..], pl.Sep());
    ConcatHas(p.parts, pl.Inverted());
    assert p.parts[1..] == Split(NormalText(pl, text)[|root|..], pl.Sep());
    if |p.parts| > 1 && p.parts[|p.parts| - 1] == [pl.Sep()] {
      EmptyLast(pl, p);
    }
    CleanNow(pl, p);
  }

  lemma AcceptedIs(pl: Platform, path: string, root: string)
    requires Accepted(pl, path, root)
    ensures path != "" && root != ""
  {
  }

  lemma WellFormedIs(pl: Platform, p: Path)
    requires WellFormed(pl, p)
    ensures p.parts != []
  {
  }

  lemma CleanNow(pl: Platform, p: Path)
    requires p.parts != [] && IsNormal(pl, p.parts[0], Add) && Pieces(p.parts[1..], pl.Sep())
    requires forall i :: 0 <= i < |p.parts| ==> pl.Inverted() !in p.parts[i]
    requires |p.parts| > 1 ==> p.parts[|p.parts| - 1] != [pl.Sep()]
    ensures Clean(pl, p)
  {
  }

  /**
   Printing a path and parsing the text below the path's root gives the path back, parts and
   hashes, exactly when the path is clean.
   */
  lemma RoundTrip(pl: Platform, hash: string -> Crc, p: Path)
    requires WellFormed(pl, p) && WellHashed(pl, hash, p)
    ensures Clean(pl, p) <==>
            Accepted(pl, Concat(p.parts), p.parts[0]) && Parsed(pl, hash, Concat(p.parts), p.parts[0]) == p
  {
    if Clean(pl, p) {
      PrintParse(pl, hash, p);
    }
    if Accepted(pl, Concat(p.parts), p.parts[0]) && Parsed(pl, hash, Concat(p.parts), p.parts[0]) == p {
      ParsedIsClean(pl, hash, p);
    }
  }
}
