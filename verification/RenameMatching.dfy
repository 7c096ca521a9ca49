/** Rename detection pairs removed and new files of equal content, as many as possible. */
module RenameMatching {
  import opened Contracts
  import opened IndexStores
  import opened IndexJobs

  function HashOf(manifests: Manifests, repository: string, path: string): Option<string> {
    if (repository, path) in manifests then Some(manifests[(repository, path)].contentHash) else None
  }

  ghost predicate IsNew(manifests: Manifests, repository: string, f: SourceFile) {
    Previous(manifests, repository, f.path).None?
  }

  /** The removed paths with a given hash, and the number of new files with it. */
  ghost function RemovedWith(manifests: Manifests, repository: string, paths: set<string>, hash: string): set<string> {
    set p | p in paths && HashOf(manifests, repository, p) == Some(hash)
  }

  ghost function NewWith(manifests: Manifests, repository: string, files: seq<SourceFile>, hash: string): nat {
    if files == [] then 0
    else
      var f := files[|files| - 1];
      NewWith(manifests, repository, files[..|files| - 1], hash)
      + if IsNew(manifests, repository, f) && f.hash == hash then 1 else 0
  }

  function Candidates(r: Renames, hash: string): seq<string> {
    if hash in r.byHash then r.byHash[hash] else []
  }

  ghost predicate Distinct(s: seq<string>) {
    forall i, j :: 0 <= i < j < |s| ==> s[i] != s[j]
  }

  ghost function ToSet(s: seq<string>): set<string> {
    set x | x in s
  }

  lemma {:induction false} DistinctSize(s: seq<string>)
    requires Distinct(s)
    ensures |ToSet(s)| == |s|
  {
    if s == [] {
      assert ToSet(s) == {};
    } else {
      var init := s[..|s| - 1];
      DistinctSize(init);
      assert s == init + [s[|s| - 1]];
      assert ToSet(s) == ToSet(init) + {s[|s| - 1]};
    }
  }

  /** removed_by_hash lists every removed path once, under its own hash. */
  lemma {:induction false} ByHashLists(manifests: Manifests, repository: string, listing: seq<string>, hash: string)
    requires forall p :: p in listing ==> (repository, p) in manifests
    requires Distinct(listing)
    ensures var c := Candidates(Renames(RemovedByHash(manifests, repository, listing), {}), hash);
            Distinct(c) && ToSet(c) == RemovedWith(manifests, repository, ToSet(listing), hash)
  {
    if listing != [] {
      var init, last := listing[..|listing| - 1], listing[|listing| - 1];
      ByHashLists(manifests, repository, init, hash);
      var before := Candidates(Renames(RemovedByHash(manifests, repository, init), {}), hash);
      var after := Candidates(Renames(RemovedByHash(manifests, repository, listing), {}), hash);
      assert listing == init + [last];
      assert last !in init;
      if manifests[(repository, last)].contentHash == hash {
        assert after == before + [last];
        assert last !in ToSet(before);
        assert ToSet(after) == ToSet(before) + {last};
        assert RemovedWith(manifests, repository, ToSet(listing), hash)
               == RemovedWith(manifests, repository, ToSet(init), hash) + {last};
      } else {
        assert after == before;
      }
    }
  }

  /** What is left under a hash and what has been taken from it, after some files. */
  ghost predicate Split(manifests: Manifests, repository: string, removed: set<string>, files: seq<SourceFile>,
                        r: Renames, hash: string) {
    var all := RemovedWith(manifests, repository, removed, hash);
    var c := Candidates(r, hash);
    && Distinct(c)
    && r.renamed <= removed
    && ToSet(c) == all - r.renamed
    && |all * r.renamed| == Min(|all|, NewWith(manifests, repository, files, hash))
  }

  function Min(x: nat, y: nat): nat {
    if x <= y then x else y
  }

  lemma {:induction false} SplitAlways(manifests: Manifests, repository: string, files: seq<SourceFile>,
                                       listing: seq<string>, hash: string)
    requires forall p :: p in listing ==> (repository, p) in manifests
    requires Distinct(listing)
    ensures Split(manifests, repository, ToSet(listing), files,
                  TakeRenames(Renames(RemovedByHash(manifests, repository, listing), {}), manifests, repository, files),
                  hash)
    decreases |files|
  {
    var start := Renames(RemovedByHash(manifests, repository, listing), {});
    var all := RemovedWith(manifests, repository, ToSet(listing), hash);
    if files == [] {
      ByHashLists(manifests, repository, listing, hash);
      assert all * {} == {};
    } else {
      var init, f := files[..|files| - 1], files[|files| - 1];
      var before := TakeRenames(start, manifests, repository, init);
      var after := TakeRenames(start, manifests, repository, files);
      SplitAlways(manifests, repository, init, listing, hash);
      SplitAlways(manifests, repository, init, listing, f.hash);
      SplitStep(manifests, repository, ToSet(listing), init, before, f, hash);
      assert init + [f] == files;
      assert after == TakeRename(before, IsNew(manifests, repository, f), f.hash);
    }
  }

  lemma SplitStep(manifests: Manifests, repository: string, removed: set<string>, files: seq<SourceFile>,
                  r: Renames, f: SourceFile, hash: string)
    requires Split(manifests, repository, removed, files, r, hash)
    requires Split(manifests, repository, removed, files, r, f.hash)
    ensures Split(manifests, repository, removed, files + [f],
                  TakeRename(r, IsNew(manifests, repository, f), f.hash), hash)
  {
    var c := Candidates(r, f.hash);
    assert (files + [f])[..|files|] == files;
    if IsNew(manifests, repository, f) && c != [] {
      if hash == f.hash {
        TakeSameHash(manifests, repository, removed, files, r, hash);
      } else {
        TakeOtherHash(manifests, repository, removed, files, r, f.hash, hash);
      }
    } else {
      Exhausted(manifests, repository, removed, files, r, hash);
    }
  }

  /** Used up and left over make up what was removed with the hash. */
  lemma Exhausted(manifests: Manifests, repository: string, removed: set<string>, files: seq<SourceFile>, r: Renames,
                  hash: string)
    requires Split(manifests, repository, removed, files, r, hash)
    ensures var all := RemovedWith(manifests, repository, removed, hash);
            |all| == |all * r.renamed| + |Candidates(r, hash)|
  {
    var all := RemovedWith(manifests, repository, removed, hash);
    DistinctSize(Candidates(r, hash));
    assert all == all * r.renamed + (all - r.renamed);
  }

  lemma TakeSameHash(manifests: Manifests, repository: string, removed: set<string>, files: seq<SourceFile>,
                     r: Renames, hash: string)
    requires Split(manifests, repository, removed, files, r, hash) && Candidates(r, hash) != []
    ensures var all := RemovedWith(manifests, repository, removed, hash);
            var after := TakeRename(r, true, hash);
            && Distinct(Candidates(after, hash)) && after.renamed <= removed
            && ToSet(Candidates(after, hash)) == all - after.renamed
            && |all * after.renamed| == Min(|all|, NewWith(manifests, repository, files, hash) + 1)
  {
    var all := RemovedWith(manifests, repository, removed, hash);
    var c := Candidates(r, hash);
    var taken, rest := c[|c| - 1], c[..|c| - 1];
    var after := TakeRename(r, true, hash);
    Exhausted(manifests, repository, removed, files, r, hash);
    assert c == rest + [taken];
    assert taken in ToSet(c);
    assert ToSet(rest) == ToSet(c) - {taken};
    assert all * after.renamed == all * r.renamed + {taken};
  }

  lemma TakeOtherHash(manifests: Manifests, repository: string, removed: set<string>, files: seq<SourceFile>,
                      r: Renames, from: string, hash: string)
    requires Split(manifests, repository, removed, files, r, hash)
             && Split(manifests, repository, removed, files, r, from)
    requires from != hash && Candidates(r, from) != []
    ensures Split(manifests, repository, removed, files, TakeRename(r, true, from), hash)
  {
    var all := RemovedWith(manifests, repository, removed, hash);
    var c := Candidates(r, from);
    var taken := c[|c| - 1];
    var after := TakeRename(r, true, from);
    assert taken in ToSet(c);
    assert taken !in all;
    assert all * after.renamed == all * r.renamed;
    assert all - after.renamed == all - r.renamed;
  }

  // ---------------------------------------------------------------- the result

  /** Per hash, the number of detected renames is the smaller of the numbers of removed and of
      new files with it; every renamed path was removed. */
  lemma RenamesPerHash(manifests: Manifests, repository: string, files: seq<SourceFile>, listing: seq<string>,
                       hash: string)
    requires Lists(listing, Removed(manifests, repository, files))
    ensures var removed := Removed(manifests, repository, files);
            var renamed := RenamedPaths(manifests, repository, files, listing);
            && renamed <= removed
            && |RemovedWith(manifests, repository, renamed, hash)|
               == Min(|RemovedWith(manifests, repository, removed, hash)|, NewWith(manifests, repository, files, hash))
  {
    var removed := Removed(manifests, repository, files);
    var renamed := RenamedPaths(manifests, repository, files, listing);
    assert ToSet(listing) == removed;
    SplitAlways(manifests, repository, files, listing, hash);
    assert RemovedWith(manifests, repository, removed, hash) * renamed
           == RemovedWith(manifests, repository, renamed, hash);
  }

  /** A pairing of removed paths with distinct new files of equal hash. */
  ghost predicate Pairing(manifests: Manifests, repository: string, files: seq<SourceFile>, pairs: map<string, nat>) {
    && pairs.Keys <= Removed(manifests, repository, files)
    && (forall p :: p in pairs ==>
          && pairs[p] < |files| && IsNew(manifests, repository, files[pairs[p]])
          && HashOf(manifests, repository, p) == Some(files[pairs[p]].hash))
    && forall p, p' :: p in pairs && p' in pairs && p != p' ==> pairs[p] != pairs[p']
  }

  /** The file each renamed path was paired with. */
  ghost function Pairs(r: Renames, manifests: Manifests, repository: string, files: seq<SourceFile>): map<string, nat> {
    if files == [] then map[]
    else
      var n := |files| - 1;
      var before := TakeRenames(r, manifests, repository, files[..n]);
      var c := Candidates(before, files[n].hash);
      if IsNew(manifests, repository, files[n]) && c != []
      then Pairs(r, manifests, repository, files[..n])[c[|c| - 1] := n]
      else Pairs(r, manifests, repository, files[..n])
  }

  /** Distinct new files of equal hash for exactly the renamed paths. */
  ghost predicate Fits(manifests: Manifests, repository: string, removed: set<string>, files: seq<SourceFile>,
                       pairs: map<string, nat>, renamed: set<string>) {
    && pairs.Keys == renamed
    && pairs.Keys <= removed
    && (forall p :: p in pairs ==>
          && pairs[p] < |files| && IsNew(manifests, repository, files[pairs[p]])
          && HashOf(manifests, repository, p) == Some(files[pairs[p]].hash))
    && forall p, p' :: p in pairs && p' in pairs && p != p' ==> pairs[p] != pairs[p']
  }

  lemma {:induction false} PairsFit(manifests: Manifests, repository: string, files: seq<SourceFile>,
                                    listing: seq<string>)
    requires forall p :: p in listing ==> (repository, p) in manifests
    requires Distinct(listing)
    ensures var start := Renames(RemovedByHash(manifests, repository, listing), {});
            Fits(manifests, repository, ToSet(listing), files, Pairs(start, manifests, repository, files),
                 TakeRenames(start, manifests, repository, files).renamed)
    decreases |files|
  {
    var start := Renames(RemovedByHash(manifests, repository, listing), {});
    if files != [] {
      var n := |files| - 1;
      PairsFit(manifests, repository, files[..n], listing);
      SplitAlways(manifests, repository, files[..n], listing, files[n].hash);
      PairStep(start, manifests, repository, ToSet(listing), files);
    }
  }

  lemma PairStep(start: Renames, manifests: Manifests, repository: string, removed: set<string>, files: seq<SourceFile>)
    requires files != []
    requires var init := files[..|files| - 1];
             && Fits(manifests, repository, removed, init, Pairs(start, manifests, repository, init),
                     TakeRenames(start, manifests, repository, init).renamed)
             && Split(manifests, repository, removed, init, TakeRenames(start, manifests, repository, init),
                      files[|files| - 1].hash)
    ensures Fits(manifests, repository, removed, files, Pairs(start, manifests, repository, files),
                 TakeRenames(start, manifests, repository, files).renamed)
  {
    hide Fits, NewWith;
    var n := |files| - 1;
    var f, before := files[n], TakeRenames(start, manifests, repository, files[..n]);
    var c := Candidates(before, f.hash);
    var pairs := Pairs(start, manifests, repository, files[..n]);
    if IsNew(manifests, repository, f) && c != [] {
      assert c[|c| - 1] in ToSet(c);
      assert HashOf(manifests, repository, c[|c| - 1]) == Some(f.hash);
      FitsTaken(manifests, repository, removed, files, pairs, before.renamed, c[|c| - 1]);
    } else {
      FitsMore(manifests, repository, removed, files, pairs, before.renamed);
    }
  }

  lemma FitsMore(manifests: Manifests, repository: string, removed: set<string>, files: seq<SourceFile>,
                 pairs: map<string, nat>, renamed: set<string>)
    requires files != [] && Fits(manifests, repository, removed, files[..|files| - 1], pairs, renamed)
    ensures Fits(manifests, repository, removed, files, pairs, renamed)
  {
    assert forall i :: 0 <= i < |files| - 1 ==> files[..|files| - 1][i] == files[i];
  }

  lemma FitsTaken(manifests: Manifests, repository: string, removed: set<string>, files: seq<SourceFile>,
                  pairs: map<string, nat>, renamed: set<string>, taken: string)
    requires files != [] && Fits(manifests, repository, removed, files[..|files| - 1], pairs, renamed)
    requires taken in removed && taken !in renamed
    requires IsNew(manifests, repository, files[|files| - 1])
    requires HashOf(manifests, repository, taken) == Some(files[|files| - 1].hash)
    ensures Fits(manifests, repository, removed, files, pairs[taken := |files| - 1], renamed + {taken})
  {
    FitsMore(manifests, repository, removed, files, pairs, renamed);
    assert forall p :: p in pairs ==> pairs[p] < |files| - 1;
  }

  lemma {:induction false} NewCount(manifests: Manifests, repository: string, files: seq<SourceFile>, hash: string,
                                    chosen: set<nat>)
    requires forall n :: n in chosen ==> n < |files| && IsNew(manifests, repository, files[n]) && files[n].hash == hash
    ensures |chosen| <= NewWith(manifests, repository, files, hash)
    decreases |files|
  {
    if files == [] {
      assert chosen == {};
    } else {
      var n := |files| - 1;
      var fewer := chosen - {n};
      assert forall i :: i in fewer ==> files[..n][i] == files[i];
      NewCount(manifests, repository, files[..n], hash, fewer);
      if n in chosen {
        assert chosen == fewer + {n};
      } else {
        assert chosen == fewer;
      }
    }
  }

  lemma {:induction false} ImageSize(pairs: map<string, nat>, paths: set<string>)
    requires paths <= pairs.Keys
    requires forall p, p' :: p in pairs && p' in pairs && p != p' ==> pairs[p] != pairs[p']
    ensures |set p | p in paths :: pairs[p]| == |paths|
    decreases |paths|
  {
    var image := set p | p in paths :: pairs[p];
    if paths == {} {
      assert image == {};
    } else {
      var x :| x in paths;
      ImageSize(pairs, paths - {x});
      assert image == (set p | p in paths - {x} :: pairs[p]) + {pairs[x]};
    }
  }

  /** Fewer paths for every hash means fewer paths. */
  lemma {:induction false} SumByHash(manifests: Manifests, repository: string, some: set<string>, more: set<string>)
    requires forall p :: p in some ==> (repository, p) in manifests
    requires forall hash ::
             |RemovedWith(manifests, repository, some, hash)| <= |RemovedWith(manifests, repository, more, hash)|
    ensures |some| <= |more|
    decreases |some|
  {
    if some != {} {
      var x :| x in some;
      var h := manifests[(repository, x)].contentHash;
      var these, those := RemovedWith(manifests, repository, some, h), RemovedWith(manifests, repository, more, h);
      forall hash
        ensures |RemovedWith(manifests, repository, some - these, hash)|
                <= |RemovedWith(manifests, repository, more - those, hash)|
      {
        if hash == h {
          assert RemovedWith(manifests, repository, some - these, hash) == {};
        } else {
          assert RemovedWith(manifests, repository, some - these, hash)
                 == RemovedWith(manifests, repository, some, hash);
          assert RemovedWith(manifests, repository, more - those, hash)
                 == RemovedWith(manifests, repository, more, hash);
        }
      }
      assert x in these;
      SumByHash(manifests, repository, some - these, more - those);
      assert some == these + (some - these) && more == those + (more - those);
      assert |some| == |these| + |some - these| && |more| == |those| + |more - those|;
    }
  }

  /** The detected renames form a pairing of removed with new files of equal hash, no pairing is
      larger, and with the deletions they account for every removed path. */
  lemma RenamesAreAMaximumMatching(manifests: Manifests, repository: string, files: seq<SourceFile>,
                                   listing: seq<string>, other: map<string, nat>)
    requires Lists(listing, Removed(manifests, repository, files))
    requires Pairing(manifests, repository, files, other)
    ensures var removed := Removed(manifests, repository, files);
            var renamed := RenamedPaths(manifests, repository, files, listing);
            && (exists pairs :: Pairing(manifests, repository, files, pairs) && pairs.Keys == renamed)
            && |other.Keys| <= |renamed|
            && |removed - renamed| + |renamed| == |removed|
  {
    var removed := Removed(manifests, repository, files);
    var renamed := RenamedPaths(manifests, repository, files, listing);
    var start := Renames(RemovedByHash(manifests, repository, listing), {});
    PairsFit(manifests, repository, files, listing);
    assert ToSet(listing) == removed;
    assert Pairing(manifests, repository, files, Pairs(start, manifests, repository, files));
    forall hash
      ensures |RemovedWith(manifests, repository, other.Keys, hash)|
              <= |RemovedWith(manifests, repository, renamed, hash)|
    {
      OtherPerHash(manifests, repository, files, other, hash);
      RenamesPerHash(manifests, repository, files, listing, hash);
    }
    SumByHash(manifests, repository, other.Keys, renamed);
    RenamesPerHash(manifests, repository, files, listing, "");
    assert removed == renamed + (removed - renamed);
  }

  lemma OtherPerHash(manifests: Manifests, repository: string, files: seq<SourceFile>, other: map<string, nat>,
                     hash: string)
    requires Pairing(manifests, repository, files, other)
    ensures |RemovedWith(manifests, repository, other.Keys, hash)|
            <= Min(|RemovedWith(manifests, repository, Removed(manifests, repository, files), hash)|,
                   NewWith(manifests, repository, files, hash))
  {
    var paths := RemovedWith(manifests, repository, other.Keys, hash);
    var all := RemovedWith(manifests, repository, Removed(manifests, repository, files), hash);
    ImageSize(other, paths);
    NewCount(manifests, repository, files, hash, set p | p in paths :: other[p]);
    assert paths <= all;
    assert all == paths + (all - paths);
  }
}
