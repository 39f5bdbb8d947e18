/** Version values and the comparison a version check performs
    (src/tricks/steps/version.rs). The `versions` crate is modelled abstractly: a parsed
    version is a semantic version, a general chunked version or a "messy" one, each
    reduced to the parts its ordering looks at; the parsers themselves are parameters. */
module Versions {
  import opened Results
  import opened Text

  /** One dot-separated component of a version. */
  datatype Chunk = Numeric(n: nat) | Alphanum(s: string)

  /** `versions::SemVer`. */
  datatype SemVer = SemVer(major: nat, minor: nat, patch: nat, preRel: Option<seq<Chunk>>, meta: Option<string>)

  /** `versions::Version`. */
  datatype Version = Version(chunks: seq<Chunk>, meta: Option<string>)

  /** `versions::Mess`, abstracted to its sequence of chunks. */
  datatype Mess = Mess(chunks: seq<Chunk>)

  /** `versions::Versioning`. */
  datatype Versioning = Ideal(semver: SemVer) | General(version: Version) | Complex(mess: Mess)

  function CmpNat(a: nat, b: nat): Ordering {
    if a < b then Less else if a == b then Equal else Greater
  }

  /** Code-point lexicographic order, which is Rust's order on `String`. */
  function CmpString(a: string, b: string): Ordering {
    if a == [] && b == [] then Equal
    else if a == [] then Less
    else if b == [] then Greater
    else if a[0] < b[0] then Less
    else if a[0] > b[0] then Greater
    else CmpString(a[1..], b[1..])
  }

  /** Numbers compare by value, words by text, and a number precedes a word. */
  function CmpChunk(a: Chunk, b: Chunk): Ordering {
    match (a, b)
    case (Numeric(x), Numeric(y)) => CmpNat(x, y)
    case (Alphanum(x), Alphanum(y)) => CmpString(x, y)
    case (Numeric(_), Alphanum(_)) => Less
    case (Alphanum(_), Numeric(_)) => Greater
  }

  /** Lexicographic order on chunk sequences; a proper prefix comes first. */
  function CmpChunks(a: seq<Chunk>, b: seq<Chunk>): Ordering {
    if a == [] && b == [] then Equal
    else if a == [] then Less
    else if b == [] then Greater
    else if CmpChunk(a[0], b[0]) != Equal then CmpChunk(a[0], b[0])
    else CmpChunks(a[1..], b[1..])
  }

  /** The chunks the ordering looks at: major.minor.patch for a semantic version. */
  function Key(v: Versioning): seq<Chunk> {
    match v
    case Ideal(s) => [Numeric(s.major), Numeric(s.minor), Numeric(s.patch)]
    case General(g) => g.chunks
    case Complex(m) => m.chunks
  }

  /** Semantic-version precedence of pre-release tags: a release follows its pre-releases. */
  function CmpPreRel(a: Option<seq<Chunk>>, b: Option<seq<Chunk>>): Ordering {
    match (a, b)
    case (None, None) => Equal
    case (Some(_), None) => Less
    case (None, Some(_)) => Greater
    case (Some(x), Some(y)) => CmpChunks(x, y)
  }

  /** `Ord for Versioning`: two semantic versions compare major, minor and patch in turn and
      then their pre-release tags; metadata never counts; any other pair compares keys. */
  function Cmp(a: Versioning, b: Versioning): Ordering {
    if a.Ideal? && b.Ideal? && CmpChunks(Key(a), Key(b)) == Equal then
      CmpPreRel(a.semver.preRel, b.semver.preRel)
    else CmpChunks(Key(a), Key(b))
  }

  /** A version with nothing left to strip. */
  predicate IsStripped(v: Versioning) {
    match v
    case Ideal(s) => s.preRel.None? && s.meta.None?
    case General(g) => g.meta.None?
    case Complex(_) => true
  }

  /** `strip_version`: drops the pre-release and metadata of a semantic version and the
      metadata of a general one; a messy version is left as it is. */
  function Strip(v: Versioning): (r: Versioning)
    ensures IsStripped(r)
    ensures IsStripped(v) ==> r == v
    ensures Key(r) == Key(v)
    ensures v.Ideal? ==> r == Ideal(v.semver.(preRel := None, meta := None))
    ensures v.General? ==> r == General(v.version.(meta := None))
    ensures v.Complex? ==> r == v
  {
    match v
    case Ideal(s) => Ideal(s.(preRel := None, meta := None))
    case General(g) => General(g.(meta := None))
    case Complex(_) => v
  }

  lemma {:induction false} CmpStringReflexive(a: string, b: string)
    ensures CmpString(a, b) == Equal <==> a == b
  {
    if a != [] && b != [] && a[0] == b[0] {
      CmpStringReflexive(a[1..], b[1..]);
      assert a == [a[0]] + a[1..] && b == [b[0]] + b[1..];
    }
  }

  lemma {:induction false} CmpStringReverse(a: string, b: string)
    ensures CmpString(b, a) == CmpString(a, b).Reverse()
  {
    if a != [] && b != [] && a[0] == b[0] {
      CmpStringReverse(a[1..], b[1..]);
    }
  }

  lemma {:induction false} CmpStringTransitive(a: string, b: string, c: string)
    requires CmpString(a, b) != Greater && CmpString(b, c) != Greater
    ensures CmpString(a, c) != Greater
  {
    if a != [] && b != [] && c != [] && a[0] == b[0] && b[0] == c[0] {
      CmpStringTransitive(a[1..], b[1..], c[1..]);
    }
  }

  lemma CmpChunkReflexive(a: Chunk, b: Chunk)
    ensures CmpChunk(a, b) == Equal <==> a == b
  {
    if a.Alphanum? && b.Alphanum? {
      CmpStringReflexive(a.s, b.s);
    }
  }

  lemma CmpChunkReverse(a: Chunk, b: Chunk)
    ensures CmpChunk(b, a) == CmpChunk(a, b).Reverse()
  {
    if a.Alphanum? && b.Alphanum? {
      CmpStringReverse(a.s, b.s);
    }
  }

  lemma CmpChunkTransitive(a: Chunk, b: Chunk, c: Chunk)
    requires CmpChunk(a, b) != Greater && CmpChunk(b, c) != Greater
    ensures CmpChunk(a, c) != Greater
    ensures CmpChunk(a, c) == Equal ==> CmpChunk(a, b) == Equal && CmpChunk(b, c) == Equal
  {
    if a.Alphanum? && b.Alphanum? && c.Alphanum? {
      CmpStringTransitive(a.s, b.s, c.s);
      CmpStringReflexive(a.s, c.s);
      CmpStringReflexive(a.s, b.s);
      CmpStringReflexive(b.s, c.s);
      if CmpString(a.s, c.s) == Equal {
        CmpStringReverse(a.s, b.s);
      }
    }
  }

  /** Chunk sequences compare equal exactly when they are equal. */
  lemma {:induction false} CmpChunksReflexive(a: seq<Chunk>, b: seq<Chunk>)
    ensures CmpChunks(a, b) == Equal <==> a == b
  {
    if a != [] && b != [] {
      CmpChunkReflexive(a[0], b[0]);
      if a[0] == b[0] {
        CmpChunksReflexive(a[1..], b[1..]);
        assert a == [a[0]] + a[1..] && b == [b[0]] + b[1..];
      }
    }
  }

  /** Swapping the operands reverses the chunk order. */
  lemma {:induction false} CmpChunksReverse(a: seq<Chunk>, b: seq<Chunk>)
    ensures CmpChunks(b, a) == CmpChunks(a, b).Reverse()
  {
    if a != [] && b != [] {
      CmpChunkReverse(a[0], b[0]);
      if CmpChunk(a[0], b[0]) == Equal {
        CmpChunksReverse(a[1..], b[1..]);
      }
    }
  }

  /** "Not after" is transitive on chunk sequences. */
  lemma {:induction false} CmpChunksTransitive(a: seq<Chunk>, b: seq<Chunk>, c: seq<Chunk>)
    requires CmpChunks(a, b) != Greater && CmpChunks(b, c) != Greater
    ensures CmpChunks(a, c) != Greater
  {
    if a != [] && b != [] && c != [] {
      CmpChunkTransitive(a[0], b[0], c[0]);
      if CmpChunk(a[0], b[0]) == Equal && CmpChunk(b[0], c[0]) == Equal {
        CmpChunkReflexive(a[0], b[0]);
        CmpChunkReflexive(b[0], c[0]);
        CmpChunksTransitive(a[1..], b[1..], c[1..]);
      }
    }
  }

  /** On stripped versions the order is exactly the order of their keys. */
  lemma CmpStrippedIsKeyOrder(a: Versioning, b: Versioning)
    requires IsStripped(a) && IsStripped(b)
    ensures Cmp(a, b) == CmpChunks(Key(a), Key(b))
  {
  }

  /** `v <= w` on `Versioning`. */
  predicate NotAfter(v: Versioning, w: Versioning) {
    Cmp(v, w) != Greater
  }

  /** Comparing versions is a total preorder once they are stripped. */
  lemma StrippedOrderIsTotalPreorder(a: Versioning, b: Versioning, c: Versioning)
    requires IsStripped(a) && IsStripped(b) && IsStripped(c)
    ensures NotAfter(a, a)
    ensures NotAfter(a, b) || NotAfter(b, a)
    ensures NotAfter(a, b) && NotAfter(b, c) ==> NotAfter(a, c)
  {
    CmpChunksReflexive(Key(a), Key(a));
    CmpChunksReverse(Key(a), Key(b));
    if NotAfter(a, b) && NotAfter(b, c) {
      CmpChunksTransitive(Key(a), Key(b), Key(c));
    }
  }

  /** Optional lower and upper bounds, both inclusive. */
  datatype VersionComparison = VersionComparison(min: Option<Versioning>, max: Option<Versioning>)

  /** Why a version is out of bounds; both carry the stripped versions. */
  datatype VersionError =
    | AboveMaximum(version: Versioning, max: Versioning)
    | BelowMinimum(version: Versioning, min: Versioning)

  /** The bounds of `vc` admit `v`: judged on the major.minor.patch (or chunk) keys alone,
      so pre-release tags and metadata never matter. */
  predicate WithinBounds(vc: VersionComparison, v: Versioning) {
    && (vc.max.Some? ==> CmpChunks(Key(v), Key(vc.max.value)) != Greater)
    && (vc.min.Some? ==> CmpChunks(Key(v), Key(vc.min.value)) != Less)
  }

  /** `VersionComparison::compare`: strips the version and each bound, rejects a version
      above the maximum, then one below the minimum. */
  function Compare(vc: VersionComparison, v: Versioning): (r: Result<(), VersionError>)
    ensures r.Ok? <==> WithinBounds(vc, v)
    ensures vc.min.None? && vc.max.None? ==> r.Ok?
    ensures r.Err? && r.error.AboveMaximum? ==>
      vc.max.Some? && CmpChunks(Key(v), Key(vc.max.value)) == Greater
      && r.error == AboveMaximum(Strip(v), Strip(vc.max.value))
    ensures r.Err? && r.error.BelowMinimum? ==>
      vc.min.Some? && CmpChunks(Key(v), Key(vc.min.value)) == Less
      && r.error == BelowMinimum(Strip(v), Strip(vc.min.value))
    ensures vc.max.Some? && CmpChunks(Key(v), Key(vc.max.value)) == Greater ==> r.Err? && r.error.AboveMaximum?
  {
    var version := Strip(v);
    if vc.max.Some? && Cmp(version, Strip(vc.max.value)) == Greater then
      Err(AboveMaximum(version, Strip(vc.max.value)))
    else if vc.min.Some? && Cmp(version, Strip(vc.min.value)) == Less then
      Err(BelowMinimum(version, Strip(vc.min.value)))
    else Ok(())
  }

  /** Both bounds are inclusive: a version is admitted by bounds equal to itself, whatever
      its pre-release tag or metadata. */
  lemma CompareAdmitsBoundItself(v: Versioning)
    ensures Compare(VersionComparison(Some(v), Some(v)), v).Ok?
  {
    CmpChunksReflexive(Key(v), Key(v));
  }

  /** The admitted versions form an interval: anything between two admitted versions is
      admitted too. */
  lemma CompareAdmitsInterval(vc: VersionComparison, a: Versioning, b: Versioning, c: Versioning)
    requires Compare(vc, a).Ok? && Compare(vc, c).Ok?
    requires CmpChunks(Key(a), Key(b)) != Greater && CmpChunks(Key(b), Key(c)) != Greater
    ensures Compare(vc, b).Ok?
  {
    if vc.max.Some? {
      CmpChunksTransitive(Key(b), Key(c), Key(vc.max.value));
    }
    if vc.min.Some? {
      CmpChunksReverse(Key(a), Key(vc.min.value));
      CmpChunksReverse(Key(b), Key(vc.min.value));
      CmpChunksTransitive(Key(vc.min.value), Key(a), Key(b));
    }
  }

  /** The versions of the kernel check in the source's unit test. */
  function Kernel(major: nat, minor: nat, patch: nat, preRel: Option<seq<Chunk>>): Versioning {
    Ideal(SemVer(major, minor, patch, preRel, None))
  }

  /** The source's unit test: with maximum 5.18.9-arch1-1, the versions 5.18.9-arch1-1,
      5.18.9-foobar and 5.18.9 are admitted; 5.18.10, 5.19.0 and 6.0.0 are not. */
  lemma KernelMaximumExample()
    ensures var vc := VersionComparison(None, Some(Kernel(5, 18, 9, Some([Alphanum("arch1-1")]))));
      && Compare(vc, Kernel(5, 18, 9, Some([Alphanum("arch1-1")]))).Ok?
      && Compare(vc, Kernel(5, 18, 9, Some([Alphanum("foobar")]))).Ok?
      && Compare(vc, Kernel(5, 18, 9, None)).Ok?
      && Compare(vc, Kernel(5, 18, 10, None)).Err?
      && Compare(vc, Kernel(5, 19, 0, None)).Err?
      && Compare(vc, Kernel(6, 0, 0, None)).Err?
  {
  }

  /** The three parsers of the `versions` crate, as partial functions on strings. */
  datatype Parsers = Parsers(
    semver: string -> Option<SemVer>,
    version: string -> Option<Version>,
    mess: string -> Option<Mess>)

  /** `versioning_serde::deserialize`: an absent string is no version; otherwise the first
      of SemVer, general Version and Mess that parses the string decides the kind. */
  function DeserializeVersioning(s: Option<string>, p: Parsers): (r: Result<Option<Versioning>, string>)
    ensures s.None? ==> r == Ok(None)
    ensures s.Some? ==> (r.Err? <==> p.semver(s.value).None? && p.version(s.value).None? && p.mess(s.value).None?)
    ensures r.Ok? && r.value.Some? ==> s.Some? && match r.value.value {
      case Ideal(sv) => p.semver(s.value) == Some(sv)
      case General(g) => p.semver(s.value).None? && p.version(s.value) == Some(g)
      case Complex(m) => p.semver(s.value).None? && p.version(s.value).None? && p.mess(s.value) == Some(m)
    }
  {
    match s
    case None => Ok(None)
    case Some(text) =>
      match p.semver(text)
      case Some(sv) => Ok(Some(Ideal(sv)))
      case None =>
        match p.version(text)
        case Some(g) => Ok(Some(General(g)))
        case None =>
          match p.mess(text)
          case Some(m) => Ok(Some(Complex(m)))
          case None => Err("unable to parse " + text + " as a version")
  }
}
