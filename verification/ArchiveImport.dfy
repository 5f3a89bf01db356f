/** Restoring archived artifact claims by their content evidence (lib/artifacts/artifact_activation.py)
    and the streamed text-mode digest (lib/infra/content_digest.py). A digest is taken to be
    injective, so it is the bytes it was computed from. */
module ArchiveImport {
  import opened ArtifactManifest

  type Byte = b: int | 0 <= b < 256

  const LF: Byte := 10
  const CR: Byte := 13
  const SUB: Byte := 0x1A

  // ----- Text-mode reading -----

  /** Up to the first 0x1A. */
  function Cut(s: seq<Byte>): seq<Byte> {
    if s == [] || s[0] == SUB then [] else [s[0]] + Cut(s[1..])
  }

  /** Every CRLF becomes LF. */
  function Fold(s: seq<Byte>): seq<Byte> {
    if s == [] then []
    else if |s| >= 2 && s[0] == CR && s[1] == LF then [LF] + Fold(s[2..])
    else [s[0]] + Fold(s[1..])
  }

  /** What a text-mode reader sees of a whole file. */
  function TextMode(s: seq<Byte>): seq<Byte> {
    Fold(Cut(s))
  }

  predicate SplitsCrLf(a: seq<Byte>, b: seq<Byte>) {
    a != [] && b != [] && a[|a| - 1] == CR && b[0] == LF
  }

  /** Folding piece by piece is folding the whole, unless the cut separates a CR from its LF. */
  lemma {:induction false} FoldOfConcat(a: seq<Byte>, b: seq<Byte>)
    requires !SplitsCrLf(a, b)
    ensures Fold(a + b) == Fold(a) + Fold(b)
  {
    if a == [] {
      assert a + b == b;
    } else {
      var k := if |a| >= 2 && a[0] == CR && a[1] == LF then 2 else 1;
      var head, rest := a[..k], a[k..];
      FoldFirst(a, b, k);
      FoldOfConcat(rest, b);
      Associative(Fold(head), Fold(rest), Fold(b));
    }
  }

  lemma Associative(a: seq<Byte>, b: seq<Byte>, c: seq<Byte>)
    ensures a + (b + c) == (a + b) + c
  {
  }

  /** Folding takes off one character, or a CRLF, at a time. */
  lemma FoldFirst(a: seq<Byte>, b: seq<Byte>, k: nat)
    requires a != [] && !SplitsCrLf(a, b)
    requires k == if |a| >= 2 && a[0] == CR && a[1] == LF then 2 else 1
    ensures Fold(a) == Fold(a[..k]) + Fold(a[k..])
    ensures Fold(a + b) == Fold(a[..k]) + Fold(a[k..] + b)
  {
    var c := a + b;
    assert c[k..] == a[k..] + b && c[0] == a[0];
    if k == 2 {
      assert c[1] == a[1] && a[..2] == [CR, LF];
      FoldPair();
    } else {
      assert |c| >= 2 ==> c[1] == if |a| >= 2 then a[1] else b[0];
      assert a[..1] == [a[0]];
      FoldSingle(a[0]);
    }
  }

  lemma FoldPair()
    ensures Fold([CR, LF]) == [LF]
  {
    assert [CR, LF][2..] == [];
  }

  lemma FoldSingle(x: Byte)
    ensures Fold([x]) == [x]
  {
    assert [x][1..] == [];
  }

  predicate HasSub(s: seq<Byte>) {
    s != [] && (s[0] == SUB || HasSub(s[1..]))
  }

  lemma {:induction false} HasSubIsMember(s: seq<Byte>)
    ensures HasSub(s) <==> SUB in s
  {
    if s != [] {
      HasSubIsMember(s[1..]);
    }
  }

  lemma {:induction false} CutOfConcat(a: seq<Byte>, b: seq<Byte>)
    ensures Cut(a + b) == if HasSub(a) then Cut(a) else a + Cut(b)
    ensures HasSub(a + b) <==> HasSub(a) || HasSub(b)
  {
    if a == [] {
      assert a + b == b;
    } else {
      assert (a + b)[0] == a[0] && (a + b)[1..] == a[1..] + b;
      if a[0] != SUB {
        CutOfConcat(a[1..], b);
        assert [a[0]] + (a[1..] + Cut(b)) == a + Cut(b);
      }
    }
  }

  lemma {:induction false} CutUnmarked(s: seq<Byte>)
    ensures !HasSub(s) ==> Cut(s) == s
  {
    if s != [] {
      CutUnmarked(s[1..]);
    }
  }

  predicate EndsInCr(s: seq<Byte>) {
    s != [] && s[|s| - 1] == CR
  }

  /** Without a CR at the very end. */
  function Body(s: seq<Byte>): seq<Byte> {
    if EndsInCr(s) then s[..|s| - 1] else s
  }

  /** How far the digest is after some bytes: a CR at the end waits for what follows. */
  ghost predicate Digesting(fed: seq<Byte>, hashed: seq<Byte>, pendingCr: bool, truncated: bool) {
    && truncated == HasSub(fed)
    && if truncated then hashed == TextMode(fed) && !pendingCr
       else pendingCr == EndsInCr(fed) && hashed == Fold(Body(fed))
  }

  class TextModeDigest {
    /** The bytes given to the hash so far. */
    var hashed: seq<Byte>
    var pendingCr: bool
    var truncated: bool
    /** Everything fed in so far. */
    ghost var fed: seq<Byte>

    ghost predicate Valid()
      reads this
    {
      Digesting(fed, hashed, pendingCr, truncated)
    }

    constructor ()
      ensures Valid() && fed == []
    {
      hashed, pendingCr, truncated, fed := [], false, false, [];
    }

    method Update(chunk: seq<Byte>)
      requires Valid()
      modifies this
      ensures Valid() && fed == old(fed) + chunk
    {
      ghost var before := fed;
      fed := fed + chunk;
      if truncated || chunk == [] {
        NothingToAdd(before, chunk);
        return;
      }
      var text := if pendingCr then [CR] + chunk else chunk;
      pendingCr := false;
      var head := Cut(text);
      CutUnmarked(text);
      truncated := HasSub(text);
      if !truncated && head[|head| - 1] == CR {
        head := head[..|head| - 1];
        pendingCr := true;
      }
      hashed := hashed + Fold(head);
      UpdateIsSound(before, chunk, text, head);
    }

    function Digest(): (r: seq<Byte>)
      requires Valid()
      reads this
      ensures r == TextMode(fed)
    {
      CutUnmarked(fed);
      TrailingCr(fed);
      if pendingCr then hashed + [CR] else hashed
    }
  }

  lemma NothingToAdd(fed: seq<Byte>, chunk: seq<Byte>)
    ensures HasSub(fed) ==> HasSub(fed + chunk) && TextMode(fed + chunk) == TextMode(fed)
    ensures chunk == [] ==> fed + chunk == fed
  {
    CutOfConcat(fed, chunk);
  }

  /** One chunk on top of what was folded before it. */
  lemma UpdateIsSound(fed: seq<Byte>, chunk: seq<Byte>, text: seq<Byte>, head: seq<Byte>)
    requires !HasSub(fed) && chunk != []
    requires text == if EndsInCr(fed) then [CR] + chunk else chunk
    requires head == if HasSub(text) then Cut(text) else Body(text)
    ensures Digesting(fed + chunk, Fold(Body(fed)) + Fold(head), !HasSub(text) && EndsInCr(text), HasSub(text))
  {
    var done := Body(fed);
    assert fed + chunk == done + text;
    HasSubOfBody(fed);
    FoldedSoFar(done, text, head);
  }

  lemma FoldedSoFar(done: seq<Byte>, text: seq<Byte>, head: seq<Byte>)
    requires !HasSub(done) && text != [] && !SplitsCrLf(done, text)
    requires head == if HasSub(text) then Cut(text) else Body(text)
    ensures HasSub(done + text) <==> HasSub(text)
    ensures EndsInCr(done + text) <==> EndsInCr(text)
    ensures Fold(done) + Fold(head) == if HasSub(text) then TextMode(done + text) else Fold(Body(done + text))
  {
    CutOfConcat(done, text);
    if HasSub(text) {
      FoldOfConcat(done, Cut(text));
    } else {
      BodyOfConcat(done, text);
      FoldOfConcat(done, Body(text));
    }
  }

  lemma BodyOfConcat(a: seq<Byte>, b: seq<Byte>)
    requires b != []
    ensures Body(a + b) == a + Body(b) && (EndsInCr(a + b) <==> EndsInCr(b))
  {
    assert (a + b)[|a + b| - 1] == b[|b| - 1];
    if EndsInCr(b) { assert (a + b)[..|a + b| - 1] == a + b[..|b| - 1]; }
  }

  lemma HasSubOfBody(s: seq<Byte>)
    ensures HasSub(s) <==> HasSub(Body(s))
  {
    if EndsInCr(s) {
      CutOfConcat(Body(s), [CR]);
      assert s == Body(s) + [CR];
    }
  }

  lemma {:induction false} CutShortens(s: seq<Byte>)
    ensures |Cut(s)| <= |s| && (|Cut(s)| < |s| <==> HasSub(s))
  {
    if s != [] && s[0] != SUB {
      CutShortens(s[1..]);
    }
  }

  /** A CR at the very end stays a CR. */
  lemma TrailingCr(s: seq<Byte>)
    ensures EndsInCr(s) ==> Fold(s) == Fold(Body(s)) + [CR]
  {
    if EndsInCr(s) {
      FoldOfConcat(Body(s), [CR]);
      FoldSingle(CR);
      assert s == Body(s) + [CR];
    }
  }

  /** However a file is cut into chunks, the streamed digest is the text-mode digest of the whole. */
  method DigestChunks(chunks: seq<seq<Byte>>) returns (digest: seq<Byte>)
    ensures digest == TextMode(Joined(chunks))
  {
    var d := new TextModeDigest();
    for i := 0 to |chunks|
      invariant d.Valid() && d.fed == Joined(chunks[..i])
    {
      d.Update(chunks[i]);
      assert chunks[..i + 1][..i] == chunks[..i];
    }
    assert chunks[..|chunks|] == chunks;
    digest := d.Digest();
  }

  function Joined(chunks: seq<seq<Byte>>): seq<Byte> {
    if chunks == [] then [] else Joined(chunks[..|chunks| - 1]) + chunks[|chunks| - 1]
  }

  // ----- Claims in an archive -----

  datatype Evidence = Exact | TextModeOnly | Mismatch

  function EvidenceFor(content: seq<Byte>, archived: seq<Byte>): Evidence {
    if content == archived then Exact else if TextMode(content) == archived then TextModeOnly else Mismatch
  }

  /** What the planner finds in the project: the claims it can prove itself, and the formal paths. */
  datatype Target = Target(entries: Manifest, formalPaths: map<Key, string>, content: map<string, seq<Byte>>)

  datatype Archive = Archive(entries: Manifest, digests: map<Key, seq<Byte>>)

  function CanonicalPath(t: Target, key: Key): Option<string> {
    if key in t.entries then Some(t.entries[key].path)
    else if key in t.formalPaths then Some(t.formalPaths[key])
    else None
  }

  /** The claim's path is canonical and its file is there. */
  predicate Provable(t: Target, key: Key, entry: Entry) {
    CanonicalPath(t, key) == Some(entry.path) && entry.path in t.content
  }

  /** The claim that is restored on the evidence, None for no claim. */
  function Restored(t: Target, key: Key, entry: Entry, digest: seq<Byte>): Option<Entry>
    requires Provable(t, key, entry)
  {
    match EvidenceFor(t.content[entry.path], digest)
    case Exact => Some(entry)
    case TextModeOnly => Claim(t.entries, key)
    case Mismatch => None
  }

  /** The evidence at hand lets the archived claim in. */
  predicate Admitted(t: Target, a: Archive, key: Key)
    requires a.digests.Keys == a.entries.Keys && key in a.entries
  {
    var entry := a.entries[key];
    Provable(t, key, entry) && EvidenceFor(t.content[entry.path], a.digests[key]) != Mismatch
  }

  predicate Importable(t: Target, a: Archive) {
    && a.digests.Keys == a.entries.Keys
    && forall key <- a.entries :: Admitted(t, a, key)
  }

  function Imported(t: Target, a: Archive): Manifest
    requires Importable(t, a)
  {
    map key | key in a.entries && Restored(t, key, a.entries[key], a.digests[key]).Some? ::
      Restored(t, key, a.entries[key], a.digests[key]).value
  }

  /** Settles one archived claim; refuses when its path or its evidence does not hold. */
  method Settle(t: Target, a: Archive, key: Key) returns (ok: bool, claim: Option<Entry>)
    requires a.digests.Keys == a.entries.Keys && key in a.entries
    ensures ok <==> Admitted(t, a, key)
    ensures ok ==> claim == Restored(t, key, a.entries[key], a.digests[key])
  {
    var entry := a.entries[key];
    if CanonicalPath(t, key) != Some(entry.path) || entry.path !in t.content {
      return false, None;
    }
    match EvidenceFor(t.content[entry.path], a.digests[key]) {
      case Exact => return true, Some(entry);
      case TextModeOnly => return true, if key in t.entries then Some(t.entries[key]) else None;
      case Mismatch => return false, None;
    }
  }

  /** Settles every archived claim. */
  method SettleAll(t: Target, a: Archive) returns (ok: bool, restored: Manifest)
    ensures ok <==> Importable(t, a)
    ensures ok ==> restored == Imported(t, a)
  {
    restored := map[];
    if a.digests.Keys != a.entries.Keys {
      return false, restored;
    }
    var todo := a.entries.Keys;
    while todo != {}
      invariant todo <= a.entries.Keys && restored.Keys <= a.entries.Keys - todo
      invariant forall key <- a.entries.Keys - todo ::
                  && Admitted(t, a, key)
                  && Claim(restored, key) == Restored(t, key, a.entries[key], a.digests[key])
      decreases |todo|
    {
      var key :| key in todo;
      var admitted, claim := Settle(t, a, key);
      if !admitted {
        return false, restored;
      }
      if claim.Some? {
        restored := restored[key := claim.value];
      }
      todo := todo - {key};
    }
    assert a.entries.Keys - todo == a.entries.Keys;
    forall key ensures Claim(restored, key) == Claim(Imported(t, a), key) {
      if key in a.entries { assert key in a.entries.Keys - todo; }
    }
    SameClaims(restored, Imported(t, a));
    ok := true;
  }

  /** Settles every archived claim, then commits them as one manifest; refuses otherwise. */
  method Import(store: ManifestStore, t: Target, a: Archive, steady: bool, inspect: string -> Observation)
    returns (accepted: bool)
    modifies store`file
    ensures accepted ==> Importable(t, a) && steady && store.file == Some(Imported(t, a))
    ensures accepted ==> Unshared(store.identity, Imported(t, a))
    ensures !accepted ==> store.file == old(store.file)
    ensures Importable(t, a) && steady && Unshared(store.identity, Imported(t, a)) &&
            (forall key <- Imported(t, a) :: inspect(Imported(t, a)[key].path) == Present) ==>
              accepted
  {
    var ok, restored := SettleAll(t, a);
    if !ok || !steady {
      return false;
    }
    var changed := store.ReplaceEntries(restored, inspect);
    return changed.Some?;
  }

  /** The project's own claim names the path, or without one the formal path of the key is it. */
  predicate IsCanonical(t: Target, key: Key, path: string) {
    (key in t.entries && t.entries[key].path == path) ||
    (key !in t.entries && key in t.formalPaths && t.formalPaths[key] == path)
  }

  /** An archive is importable exactly when every claim has its digest, sits at its canonical path with a
      file there, and the file is what the digest stands for, as bytes or as read in text mode. */
  lemma ImportableIff(t: Target, a: Archive)
    ensures Importable(t, a) <==>
      && a.digests.Keys == a.entries.Keys
      && forall key <- a.entries ::
           && IsCanonical(t, key, a.entries[key].path) && a.entries[key].path in t.content
           && var content := t.content[a.entries[key].path];
              a.digests[key] == content || a.digests[key] == TextMode(content)
  {
    if a.digests.Keys == a.entries.Keys {
      forall key | key in a.entries
        ensures Admitted(t, a, key) <==>
          && IsCanonical(t, key, a.entries[key].path) && a.entries[key].path in t.content
          && var content := t.content[a.entries[key].path];
             a.digests[key] == content || a.digests[key] == TextMode(content)
      {
      }
    }
  }

  /** Every imported claim was in the archive, sits at its canonical path, and is either the archived
      claim, bound to exactly the bytes on disk, or one the project proves by itself. */
  lemma ImportedClaimsAreBound(t: Target, a: Archive, key: Key)
    requires Importable(t, a) && key in Imported(t, a)
    ensures var claim := Imported(t, a)[key];
            && key in a.entries && CanonicalPath(t, key) == Some(claim.path)
            && ((claim == a.entries[key] && t.content[claim.path] == a.digests[key]) ||
                claim == Claim(t.entries, key).value)
  {
  }

  /** Exporting rebases the claims on their canonical paths and records the bytes they stand for. */
  function Exported(t: Target, m: Manifest): Archive
    requires forall key <- m :: CanonicalPath(t, key).Some? && CanonicalPath(t, key).value in t.content
  {
    Archive(map key | key in m :: Entry(CanonicalPath(t, key).value, m[key].basis),
            map key | key in m :: t.content[CanonicalPath(t, key).value])
  }

  /** Importing an export into a project with the same files restores exactly the exported claims. */
  lemma ImportUndoesExport(t: Target, m: Manifest)
    requires forall key <- m :: CanonicalPath(t, key).Some? && CanonicalPath(t, key).value in t.content
    ensures Importable(t, Exported(t, m)) && Imported(t, Exported(t, m)) == Exported(t, m).entries
  {
  }

  /** The same archive with digests taken in text mode keeps a frozen claim exactly where text mode
      reads the file unchanged; elsewhere only what the project proves by itself is left. */
  lemma TextModeExportKeeps(t: Target, m: Manifest, key: Key)
    requires forall k <- m :: CanonicalPath(t, k).Some? && CanonicalPath(t, k).value in t.content
    requires key in m
    ensures var exact := Exported(t, m);
            var a := Archive(exact.entries, map k | k in m :: TextMode(exact.digests[k]));
            && Importable(t, a)
            && Claim(Imported(t, a), key) ==
               if TextMode(exact.digests[key]) == exact.digests[key] then Some(exact.entries[key])
               else Claim(t.entries, key)
  {
  }

  /** Which files text mode reads unchanged: those without CRLF and without 0x1A. */
  lemma {:induction false} UnchangedByTextMode(s: seq<Byte>)
    ensures TextMode(s) == s <==> SUB !in s && forall i | 0 < i < |s| :: !(s[i - 1] == CR && s[i] == LF)
  {
    FoldShortens(Cut(s));
    CutShortens(s);
    CutUnmarked(s);
    HasSubIsMember(s);
  }

  lemma {:induction false} FoldShortens(s: seq<Byte>)
    ensures |Fold(s)| <= |s|
    ensures Fold(s) == s <==> |Fold(s)| == |s|
    ensures |Fold(s)| == |s| <==> forall i | 0 < i < |s| :: !(s[i - 1] == CR && s[i] == LF)
  {
    if s != [] {
      if |s| >= 2 && s[0] == CR && s[1] == LF {
        FoldShortens(s[2..]);
      } else {
        FoldShortens(s[1..]);
        assert s == [s[0]] + s[1..];
        forall i | 0 < i < |s[1..]| ensures s[1..][i - 1] == s[i] && s[1..][i] == s[i + 1] {}
        if forall i | 0 < i < |s[1..]| :: !(s[1..][i - 1] == CR && s[1..][i] == LF) {
          forall i | 0 < i < |s| ensures !(s[i - 1] == CR && s[i] == LF) {
            if i > 1 { assert s[1..][i - 2] == s[i - 1] && s[1..][i - 1] == s[i]; }
          }
        }
      }
    }
  }
}
