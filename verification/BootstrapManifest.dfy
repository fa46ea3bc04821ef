/** Loading a bootstrap manifest from its parsed entries
    (crates/familiar-ai-core/src/bootstrap.rs, lines 108-207). */
module BootstrapManifest {
  import opened Wrappers
  import opened BacklogGraph
  import opened CanonicalManifest

  datatype RawItem = RawItem(path: string, sha256: string)

  /** An active PRD as discovery found it. */
  datatype Discovered = Discovered(id: PrdId, number: nat, path: string, contentHash: string)

  datatype ItemError =
    | InvalidPath(path: string)
    | DuplicatePath(path: string)
    | InvalidHash(path: string)
    | NotDiscovered(path: string)
    | DuplicateIdentity(path: string, id: PrdId)
    | HashMismatch(path: string)

  datatype ManifestError =
    | UnsupportedVersion(version: nat)
    | NothingCompleted
    | Invalid(errors: seq<ItemError>)
    | Stale(errors: seq<ItemError>)

  datatype Manifest = Manifest(version: nat, canonical: seq<byte>, items: seq<Item>)

  const PREFIX: string := "docs/prds/PRD-"

  /** The text between the fixed directory prefix and the ".md" extension. */
  function PathDigits(path: string): Option<string> {
    var n := |path|;
    if PREFIX <= path && n >= |PREFIX| + 3 && path[n - 3] == '.' && path[n - 2] == 'm' && path[n - 1] == 'd'
    then Some(path[|PREFIX|..n - 3])
    else None
  }

  predicate ValidPath(path: string) {
    var digits := PathDigits(path);
    && digits.Some? && digits.value != ""
    && (forall i :: 0 <= i < |digits.value| ==> '0' <= digits.value[i] <= '9')
    && '\\' !in path
  }

  /** A valid path is exactly a nonempty number between the fixed prefix and extension. */
  lemma ValidPathExactly(path: string)
    ensures ValidPath(path) <==> exists digits: string :: NumberedPath(path, digits)
  {
    if ValidPath(path) {
      var digits := PathDigits(path).value;
      assert path == PREFIX + digits + ".md";
      assert NumberedPath(path, digits);
    }
    if digits: string :| NumberedPath(path, digits) {
      assert path[|PREFIX|..|path| - 3] == digits;
      forall i | 0 <= i < |path| ensures path[i] != '\\' {
        if |PREFIX| <= i < |path| - 3 {
          assert path[i] == digits[i - |PREFIX|];
        }
      }
    }
  }

  predicate NumberedPath(path: string, digits: string) {
    path == "docs/prds/PRD-" + digits + ".md" && digits != ""
    && forall i :: 0 <= i < |digits| ==> '0' <= digits[i] <= '9'
  }

  lemma ValidPathIsAscii(path: string)
    requires ValidPath(path)
    ensures IsAscii(path)
  {
    var digits := PathDigits(path).value;
    forall i | 0 <= i < |path| ensures path[i] as int < 128 {
      if i < |PREFIX| {
        assert path[i] == PREFIX[i];
      } else if i < |path| - 3 {
        assert path[i] == digits[i - |PREFIX|];
      }
    }
  }

  /** Discovered PRDs by path; of two with one path the later counts. */
  function ByPath(discovered: seq<Discovered>): map<string, Discovered> {
    if discovered == [] then map[]
    else
      var last := discovered[|discovered| - 1];
      ByPath(discovered[..|discovered| - 1])[last.path := last]
  }

  lemma {:induction false} ByPathKeepsPaths(discovered: seq<Discovered>, path: string)
    requires path in ByPath(discovered)
    ensures ByPath(discovered)[path].path == path && ByPath(discovered)[path] in discovered
  {
    if discovered[|discovered| - 1].path != path {
      ByPathKeepsPaths(discovered[..|discovered| - 1], path);
    }
  }

  // ------------------------------------------------------------------
  // One pass over the entries
  // ------------------------------------------------------------------

  datatype Pass = Pass(seenPaths: set<string>, seenIds: set<PrdId>, items: seq<Item>, errors: seq<ItemError>)

  const FRESH_PASS := Pass({}, {}, [], [])

  function ItemOf(raw: RawItem, prd: Discovered): Item {
    Item(prd.path, prd.number, prd.id.suffix, raw.sha256, prd.contentHash)
  }

  function CheckItem(pass: Pass, raw: RawItem, byPath: map<string, Discovered>): Pass {
    if !ValidPath(raw.path) then pass.(errors := pass.errors + [InvalidPath(raw.path)])
    else if raw.path in pass.seenPaths then pass.(errors := pass.errors + [DuplicatePath(raw.path)])
    else
      var named := pass.(seenPaths := pass.seenPaths + {raw.path});
      if !IsHash(raw.sha256) then named.(errors := pass.errors + [InvalidHash(raw.path)])
      else if raw.path !in byPath then named.(errors := pass.errors + [NotDiscovered(raw.path)])
      else
        var prd := byPath[raw.path];
        if prd.id in pass.seenIds then named.(errors := pass.errors + [DuplicateIdentity(raw.path, prd.id)])
        else
          var known := named.(seenIds := pass.seenIds + {prd.id});
          if prd.contentHash != raw.sha256 then known.(errors := pass.errors + [HashMismatch(raw.path)])
          else known.(items := pass.items + [ItemOf(raw, prd)])
  }

  /** The pass over the first n entries. */
  function PassOver(completed: seq<RawItem>, n: nat, byPath: map<string, Discovered>): Pass
    requires n <= |completed|
  {
    if n == 0 then FRESH_PASS else CheckItem(PassOver(completed, n - 1, byPath), completed[n - 1], byPath)
  }

  predicate AnyMismatch(errors: seq<ItemError>) {
    exists error :: error in errors && error.HashMismatch?
  }

  function Loaded(version: nat, completed: seq<RawItem>, discovered: seq<Discovered>): Result<Manifest, ManifestError> {
    if version != 1 then Failure(UnsupportedVersion(version))
    else if completed == [] then Failure(NothingCompleted)
    else
      var pass := PassOver(completed, |completed|, ByPath(discovered));
      if pass.errors != [] then
        Failure(if AnyMismatch(pass.errors) then Stale(pass.errors) else Invalid(pass.errors))
      else
        GatheredEncodable(completed, |completed|, discovered);
        SortedEncodable(pass.items);
        Success(Manifest(version, CanonicalBytes(version, Sorted(pass.items)), Sorted(pass.items)))
  }

  lemma {:induction false} GatheredEncodable(completed: seq<RawItem>, n: nat, discovered: seq<Discovered>)
    requires n <= |completed|
    ensures AllEncodable(PassOver(completed, n, ByPath(discovered)).items)
  {
    if n > 0 {
      var raw := completed[n - 1];
      GatheredEncodable(completed, n - 1, discovered);
      if ValidPath(raw.path) && raw.path in ByPath(discovered) {
        ValidPathIsAscii(raw.path);
        ByPathKeepsPaths(discovered, raw.path);
      }
    }
  }

  lemma SortedEncodable(items: seq<Item>)
    requires AllEncodable(items)
    ensures AllEncodable(Sorted(items))
  {
    forall i | 0 <= i < |items| ensures Encodable(Sorted(items)[i]) {
      assert Sorted(items)[i] in items;
    }
  }

  /** One entry against the sets and lists the pass has built, in the order the source asks. */
  method CheckOne(pass: Pass, item: RawItem, byPath: map<string, Discovered>) returns (next: Pass)
    ensures next == CheckItem(pass, item, byPath)
  {
    var seenPaths, seenIds, items, errors := pass.seenPaths, pass.seenIds, pass.items, pass.errors;
    if !ValidPath(item.path) {
      errors := errors + [InvalidPath(item.path)];
    } else if item.path in seenPaths {
      errors := errors + [DuplicatePath(item.path)];
    } else {
      seenPaths := seenPaths + {item.path};
      if !IsHash(item.sha256) {
        errors := errors + [InvalidHash(item.path)];
      } else if item.path !in byPath {
        errors := errors + [NotDiscovered(item.path)];
      } else {
        var prd := byPath[item.path];
        if prd.id in seenIds {
          errors := errors + [DuplicateIdentity(item.path, prd.id)];
        } else {
          seenIds := seenIds + {prd.id};
          if prd.contentHash != item.sha256 {
            errors := errors + [HashMismatch(item.path)];
          } else {
            items := items + [ItemOf(item, prd)];
          }
        }
      }
    }
    next := Pass(seenPaths, seenIds, items, errors);
  }

  /** The loader as the source runs it: one pass, then a sort, then the canonical buffer. */
  method LoadManifest(version: nat, completed: seq<RawItem>, discovered: seq<Discovered>)
    returns (result: Result<Manifest, ManifestError>)
    ensures result == Loaded(version, completed, discovered)
  {
    if version != 1 { return Failure(UnsupportedVersion(version)); }
    if completed == [] { return Failure(NothingCompleted); }
    var byPath := ByPath(discovered);
    var pass := FRESH_PASS;
    for i := 0 to |completed|
      invariant pass == PassOver(completed, i, byPath)
    {
      pass := CheckOne(pass, completed[i], byPath);
    }
    if pass.errors != [] {
      return Failure(if AnyMismatch(pass.errors) then Stale(pass.errors) else Invalid(pass.errors));
    }
    GatheredEncodable(completed, |completed|, discovered);
    SortedEncodable(pass.items);
    var items := Sorted(pass.items);
    var canonical := BuildCanonical(version, items);
    return Success(Manifest(version, canonical, items));
  }

  // ------------------------------------------------------------------
  // What is accepted
  // ------------------------------------------------------------------

  /** An entry that is sound by itself: an active PRD's path with that PRD's hash. */
  predicate Sound(raw: RawItem, byPath: map<string, Discovered>) {
    && ValidPath(raw.path) && IsHash(raw.sha256)
    && raw.path in byPath && byPath[raw.path].contentHash == raw.sha256
  }

  ghost predicate AllSound(completed: seq<RawItem>, byPath: map<string, Discovered>) {
    forall i :: 0 <= i < |completed| ==> Sound(completed[i], byPath)
  }

  /** No path and no PRD is listed twice. */
  ghost predicate NoneTwice(completed: seq<RawItem>, byPath: map<string, Discovered>)
    requires AllSound(completed, byPath)
  {
    forall i, j :: 0 <= i < j < |completed| ==>
      completed[i].path != completed[j].path && byPath[completed[i].path].id != byPath[completed[j].path].id
  }

  function ItemsOf(completed: seq<RawItem>, byPath: map<string, Discovered>): (items: seq<Item>)
    requires AllSound(completed, byPath)
    ensures |items| == |completed|
  {
    seq(|completed|, i requires 0 <= i < |completed| => ItemOf(completed[i], byPath[completed[i].path]))
  }

  // The pass asks its questions one by one; each has an answer that looks at the list alone.

  /** A valid path no earlier entry has. */
  predicate Named(completed: seq<RawItem>, i: nat)
    requires i < |completed|
  {
    ValidPath(completed[i].path) && forall j :: 0 <= j < i ==> completed[j].path != completed[i].path
  }

  /** It also gives a hash and names a discovered PRD. */
  predicate Identified(completed: seq<RawItem>, i: nat, byPath: map<string, Discovered>)
    requires i < |completed|
  {
    Named(completed, i) && IsHash(completed[i].sha256) && completed[i].path in byPath
  }

  /** And no earlier identified entry names the same one. */
  predicate Resolved(completed: seq<RawItem>, i: nat, byPath: map<string, Discovered>)
    requires i < |completed|
  {
    && Identified(completed, i, byPath)
    && forall j {:trigger Identified(completed, j, byPath)} :: 0 <= j < i && Identified(completed, j, byPath) ==>
         byPath[completed[j].path].id != byPath[completed[i].path].id
  }

  /** All that is wrong with it, if anything, is its hash. */
  predicate Outdated(completed: seq<RawItem>, i: nat, byPath: map<string, Discovered>)
    requires i < |completed|
  {
    Resolved(completed, i, byPath) && byPath[completed[i].path].contentHash != completed[i].sha256
  }

  predicate Fine(completed: seq<RawItem>, i: nat, byPath: map<string, Discovered>)
    requires i < |completed|
  {
    Resolved(completed, i, byPath) && byPath[completed[i].path].contentHash == completed[i].sha256
  }

  ghost predicate PathSeen(completed: seq<RawItem>, n: nat, path: string)
    requires n <= |completed|
  {
    exists i :: 0 <= i < n && completed[i].path == path
  }

  ghost predicate IdSeen(completed: seq<RawItem>, n: nat, byPath: map<string, Discovered>, id: PrdId)
    requires n <= |completed|
  {
    exists i {:trigger Identified(completed, i, byPath)} :: 0 <= i < n && Identified(completed, i, byPath)
      && byPath[completed[i].path].id == id
  }

  /** What the two sets of the pass hold. */
  ghost predicate Sees(pass: Pass, completed: seq<RawItem>, n: nat, byPath: map<string, Discovered>)
    requires n <= |completed|
  {
    && (forall path {:trigger PathSeen(completed, n, path)} {:trigger path in pass.seenPaths} ::
          path in pass.seenPaths <==> ValidPath(path) && PathSeen(completed, n, path))
    && (forall id {:trigger IdSeen(completed, n, byPath, id)} {:trigger id in pass.seenIds} ::
          id in pass.seenIds <==> IdSeen(completed, n, byPath, id))
  }

  lemma IdSeenStep(completed: seq<RawItem>, n: nat, byPath: map<string, Discovered>, id: PrdId)
    requires n < |completed|
    ensures IdSeen(completed, n + 1, byPath, id)
            <==> IdSeen(completed, n, byPath, id)
                 || (Identified(completed, n, byPath) && byPath[completed[n].path].id == id)
  {
  }

  lemma PassSeesStep(pass: Pass, completed: seq<RawItem>, n: nat, byPath: map<string, Discovered>)
    requires n < |completed| && Sees(pass, completed, n, byPath)
    ensures Sees(CheckItem(pass, completed[n], byPath), completed, n + 1, byPath)
    ensures Named(completed, n) <==> ValidPath(completed[n].path) && completed[n].path !in pass.seenPaths
    ensures Identified(completed, n, byPath) ==>
              (Resolved(completed, n, byPath) <==> byPath[completed[n].path].id !in pass.seenIds)
  {
    forall id ensures id in CheckItem(pass, completed[n], byPath).seenIds <==> IdSeen(completed, n + 1, byPath, id) {
      IdSeenStep(completed, n, byPath, id);
    }
  }

  lemma {:induction false} PassSees(completed: seq<RawItem>, n: nat, byPath: map<string, Discovered>)
    requires n <= |completed|
    ensures Sees(PassOver(completed, n, byPath), completed, n, byPath)
  {
    if n > 0 {
      var before := PassOver(completed, n - 1, byPath);
      PassSees(completed, n - 1, byPath);
      PassSeesStep(before, completed, n - 1, byPath);
      assert PassOver(completed, n, byPath) == CheckItem(before, completed[n - 1], byPath);
    }
  }

  /** One more entry: kept when fine, a hash mismatch when only outdated, another error otherwise. */
  lemma EntryOutcome(completed: seq<RawItem>, n: nat, byPath: map<string, Discovered>)
    requires n < |completed|
    ensures var before, after := PassOver(completed, n, byPath), PassOver(completed, n + 1, byPath);
            if Fine(completed, n, byPath) then
              after.errors == before.errors
              && after.items == before.items + [ItemOf(completed[n], byPath[completed[n].path])]
            else
              && |after.errors| == |before.errors| + 1
              && after.errors[..|before.errors|] == before.errors
              && (after.errors[|before.errors|].HashMismatch? <==> Outdated(completed, n, byPath))
  {
    PassSees(completed, n, byPath);
    PassSeesStep(PassOver(completed, n, byPath), completed, n, byPath);
  }

  /** The error an entry that is not fine adds: its first fault, in the order of the questions. */
  predicate AddsError(completed: seq<RawItem>, n: nat, byPath: map<string, Discovered>, error: ItemError)
    requires n < |completed|
  {
    var raw := completed[n];
    if !ValidPath(raw.path) then error == InvalidPath(raw.path)
    else if !Named(completed, n) then error == DuplicatePath(raw.path)
    else if !IsHash(raw.sha256) then error == InvalidHash(raw.path)
    else if raw.path !in byPath then error == NotDiscovered(raw.path)
    else if !Resolved(completed, n, byPath) then error == DuplicateIdentity(raw.path, byPath[raw.path].id)
    else error == HashMismatch(raw.path)
  }

  lemma EntryErrorExactly(completed: seq<RawItem>, n: nat, byPath: map<string, Discovered>)
    requires n < |completed| && !Fine(completed, n, byPath)
    ensures var before, after := PassOver(completed, n, byPath).errors, PassOver(completed, n + 1, byPath).errors;
            |after| == |before| + 1 && after[..|before|] == before
            && AddsError(completed, n, byPath, after[|before|])
  {
    PassSees(completed, n, byPath);
    PassSeesStep(PassOver(completed, n, byPath), completed, n, byPath);
  }

  /** How the error list grows, as booleans of the entry checked. */
  ghost predicate Grows(before: seq<ItemError>, after: seq<ItemError>, fine: bool, outdated: bool) {
    if fine then after == before && !outdated
    else after != [] && after[..|after| - 1] == before && (after[|after| - 1].HashMismatch? <==> outdated)
  }

  lemma GrowthTells(before: seq<ItemError>, after: seq<ItemError>, fine: bool, outdated: bool)
    requires Grows(before, after, fine, outdated)
    ensures after == [] <==> before == [] && fine
    ensures AnyMismatch(after) <==> AnyMismatch(before) || outdated
  {
    if !fine {
      assert after == before + [after[|after| - 1]];
      AnyMismatchAppend(before, after[|after| - 1]);
    }
  }

  lemma EntryGrows(completed: seq<RawItem>, n: nat, byPath: map<string, Discovered>)
    requires n < |completed|
    ensures Grows(PassOver(completed, n, byPath).errors, PassOver(completed, n + 1, byPath).errors,
                  Fine(completed, n, byPath), Outdated(completed, n, byPath))
  {
    EntryOutcome(completed, n, byPath);
  }

  lemma {:induction false} ErrorsTell(errors: seq<seq<ItemError>>, fine: seq<bool>, outdated: seq<bool>, n: nat)
    requires n <= |fine| == |outdated| && |errors| == |fine| + 1 && errors[0] == []
    requires forall i :: 0 <= i < n ==> Grows(errors[i], errors[i + 1], fine[i], outdated[i])
    ensures errors[n] == [] <==> forall i :: 0 <= i < n ==> fine[i]
    ensures AnyMismatch(errors[n]) <==> exists i :: 0 <= i < n && outdated[i]
  {
    if n > 0 {
      ErrorsTell(errors, fine, outdated, n - 1);
      GrowthTells(errors[n - 1], errors[n], fine[n - 1], outdated[n - 1]);
    }
  }

  function ErrorLists(completed: seq<RawItem>, byPath: map<string, Discovered>): (lists: seq<seq<ItemError>>)
    ensures |lists| == |completed| + 1
    ensures forall i :: 0 <= i <= |completed| ==> lists[i] == PassOver(completed, i, byPath).errors
  {
    seq(|completed| + 1, i requires 0 <= i <= |completed| => PassOver(completed, i, byPath).errors)
  }

  function FineFlags(completed: seq<RawItem>, byPath: map<string, Discovered>): (flags: seq<bool>)
    ensures |flags| == |completed| && forall i :: 0 <= i < |completed| ==> flags[i] == Fine(completed, i, byPath)
  {
    seq(|completed|, i requires 0 <= i < |completed| => Fine(completed, i, byPath))
  }

  function OutdatedFlags(completed: seq<RawItem>, byPath: map<string, Discovered>): (flags: seq<bool>)
    ensures |flags| == |completed| && forall i :: 0 <= i < |completed| ==> flags[i] == Outdated(completed, i, byPath)
  {
    seq(|completed|, i requires 0 <= i < |completed| => Outdated(completed, i, byPath))
  }

  lemma ErrorListsGrow(completed: seq<RawItem>, i: nat, byPath: map<string, Discovered>)
    requires i < |completed|
    ensures Grows(ErrorLists(completed, byPath)[i], ErrorLists(completed, byPath)[i + 1],
                  FineFlags(completed, byPath)[i], OutdatedFlags(completed, byPath)[i])
  {
    EntryGrows(completed, i, byPath);
  }

  lemma ErrorsExactly(completed: seq<RawItem>, byPath: map<string, Discovered>)
    ensures var errors := PassOver(completed, |completed|, byPath).errors;
            && (errors == [] <==> forall i :: 0 <= i < |completed| ==> Fine(completed, i, byPath))
            && (AnyMismatch(errors) <==> exists i :: 0 <= i < |completed| && Outdated(completed, i, byPath))
  {
    var n := |completed|;
    var errors, fine, outdated := ErrorLists(completed, byPath), FineFlags(completed, byPath),
        OutdatedFlags(completed, byPath);
    forall i | 0 <= i < n ensures Grows(errors[i], errors[i + 1], fine[i], outdated[i]) {
      ErrorListsGrow(completed, i, byPath);
    }
    ErrorsTell(errors, fine, outdated, n);
  }

  lemma AnyMismatchAppend(errors: seq<ItemError>, error: ItemError)
    ensures AnyMismatch(errors + [error]) <==> AnyMismatch(errors) || error.HashMismatch?
  {
    if AnyMismatch(errors) {
      var mismatch :| mismatch in errors && mismatch.HashMismatch?;
      assert mismatch in errors + [error];
    }
    if error.HashMismatch? { assert error in errors + [error]; }
  }

  lemma {:induction false} KeptWhenFine(completed: seq<RawItem>, n: nat, byPath: map<string, Discovered>)
    requires n <= |completed| && AllSound(completed, byPath)
    requires forall i :: 0 <= i < n ==> Fine(completed, i, byPath)
    ensures PassOver(completed, n, byPath).items == ItemsOf(completed, byPath)[..n]
  {
    if n > 0 {
      KeptWhenFine(completed, n - 1, byPath);
      EntryKept(completed, n - 1, byPath, PassOver(completed, n - 1, byPath).items,
        PassOver(completed, n, byPath).items);
    }
  }

  lemma EntryKept(completed: seq<RawItem>, n: nat, byPath: map<string, Discovered>, before: seq<Item>, after: seq<Item>)
    requires n < |completed| && AllSound(completed, byPath) && Fine(completed, n, byPath)
    requires before == PassOver(completed, n, byPath).items == ItemsOf(completed, byPath)[..n]
    requires after == PassOver(completed, n + 1, byPath).items
    ensures after == ItemsOf(completed, byPath)[..n + 1]
  {
    EntryOutcome(completed, n, byPath);
    var items := ItemsOf(completed, byPath);
    assert items[..n + 1] == items[..n] + [items[n]];
  }

  lemma AllFineExactly(completed: seq<RawItem>, byPath: map<string, Discovered>)
    ensures (forall i :: 0 <= i < |completed| ==> Fine(completed, i, byPath))
            <==> AllSound(completed, byPath) && NoneTwice(completed, byPath)
  {
    if forall i :: 0 <= i < |completed| ==> Fine(completed, i, byPath) {
      forall i | 0 <= i < |completed| ensures Sound(completed[i], byPath) {
        assert Fine(completed, i, byPath);
      }
      forall i, j | 0 <= i < j < |completed|
        ensures completed[i].path != completed[j].path && byPath[completed[i].path].id != byPath[completed[j].path].id
      {
        assert Fine(completed, i, byPath) && Fine(completed, j, byPath);
      }
    }
    if AllSound(completed, byPath) && NoneTwice(completed, byPath) {
      forall i | 0 <= i < |completed| ensures Fine(completed, i, byPath) {
        assert Sound(completed[i], byPath);
      }
    }
  }

  /** A manifest loads exactly when its version is 1 and it lists at least one PRD, each an
      active one under its current hash, and none twice. It is stale exactly when the hash
      is all that is wrong with some entry. */
  lemma LoadsExactly(version: nat, completed: seq<RawItem>, discovered: seq<Discovered>)
    ensures var byPath, result := ByPath(discovered), Loaded(version, completed, discovered);
            && (result.Success?
                <==> version == 1 && completed != [] && AllSound(completed, byPath) && NoneTwice(completed, byPath))
            && (result.Failure? && result.error.Stale?
                <==> version == 1 && exists i :: 0 <= i < |completed| && Outdated(completed, i, byPath))
  {
    ErrorsExactly(completed, ByPath(discovered));
    AllFineExactly(completed, ByPath(discovered));
    assert forall i :: 0 <= i < |completed| ==>
             !(Fine(completed, i, ByPath(discovered)) && Outdated(completed, i, ByPath(discovered)));
  }

  lemma SoundPathsDiffer(completed: seq<RawItem>, discovered: seq<Discovered>)
    requires AllSound(completed, ByPath(discovered)) && NoneTwice(completed, ByPath(discovered))
    ensures DistinctPaths(ItemsOf(completed, ByPath(discovered)))
  {
    var items := ItemsOf(completed, ByPath(discovered));
    forall i, j | 0 <= i < j < |items| ensures items[i].path != items[j].path {
      ByPathKeepsPaths(discovered, completed[i].path);
      ByPathKeepsPaths(discovered, completed[j].path);
    }
  }

  /** What loads is all the entries, sorted strictly, and encoded. */
  lemma LoadedIsSorted(version: nat, completed: seq<RawItem>, discovered: seq<Discovered>)
    requires Loaded(version, completed, discovered).Success?
    ensures AllSound(completed, ByPath(discovered))
    ensures var manifest := Loaded(version, completed, discovered).value;
            && StrictlySorted(manifest.items)
            && AllEncodable(manifest.items)
            && manifest.canonical == CanonicalBytes(1, manifest.items)
            && (forall x :: x in manifest.items <==> x in ItemsOf(completed, ByPath(discovered)))
            && forall i, j :: 0 <= i < j < |manifest.items| ==>
                 var a, b := manifest.items[i], manifest.items[j];
                 a.number < b.number || (a.number == b.number && StringOrder.Less(a.path, b.path))
  {
    var byPath := ByPath(discovered);
    LoadsExactly(version, completed, discovered);
    AllFineExactly(completed, byPath);
    KeptWhenFine(completed, |completed|, byPath);
    assert PassOver(completed, |completed|, byPath).items == ItemsOf(completed, byPath);
    GatheredEncodable(completed, |completed|, discovered);
    SortedEncodable(ItemsOf(completed, byPath));
    SoundPathsDiffer(completed, discovered);
    SortedIsSorted(ItemsOf(completed, byPath));
  }

  /** The item is the entry, with the number and suffix of the PRD discovered under its path. */
  ghost predicate Lists(item: Item, raw: RawItem, discovered: seq<Discovered>) {
    && item.path == raw.path && item.declaredHash == raw.sha256 == item.observedHash
    && exists prd :: prd in discovered && prd.path == raw.path && prd.contentHash == raw.sha256
                     && item.number == prd.number && item.suffix == prd.id.suffix
  }

  lemma ItemIsAsListed(raw: RawItem, discovered: seq<Discovered>)
    requires Sound(raw, ByPath(discovered))
    ensures Lists(ItemOf(raw, ByPath(discovered)[raw.path]), raw, discovered)
  {
    ByPathKeepsPaths(discovered, raw.path);
    assert ByPath(discovered)[raw.path] in discovered;
  }

  /** A loaded manifest has one item for each entry, as listed and as discovered. */
  lemma ItemsAreAsListed(version: nat, completed: seq<RawItem>, discovered: seq<Discovered>)
    requires Loaded(version, completed, discovered).Success?
    ensures var items := Loaded(version, completed, discovered).value.items;
            && (forall raw | raw in completed :: exists item :: item in items && Lists(item, raw, discovered))
            && (forall item | item in items :: exists raw :: raw in completed && Lists(item, raw, discovered))
  {
    var byPath, items := ByPath(discovered), Loaded(version, completed, discovered).value.items;
    LoadedIsSorted(version, completed, discovered);
    forall k | 0 <= k < |completed|
      ensures Lists(ItemsOf(completed, byPath)[k], completed[k], discovered)
      ensures ItemsOf(completed, byPath)[k] in items && completed[k] in completed
    {
      ItemIsAsListed(completed[k], discovered);
      assert ItemsOf(completed, byPath)[k] in ItemsOf(completed, byPath);
    }
    forall item | item in items ensures exists raw :: raw in completed && Lists(item, raw, discovered) {
      var k :| 0 <= k < |completed| && ItemsOf(completed, byPath)[k] == item;
      assert Lists(item, completed[k], discovered);
    }
  }

  // ------------------------------------------------------------------
  // The fingerprint's bytes
  // ------------------------------------------------------------------

  function Listed(completed: seq<RawItem>): set<(string, string)> {
    set i | 0 <= i < |completed| :: (completed[i].path, completed[i].sha256)
  }

  lemma ListedInItems(completed: seq<RawItem>, discovered: seq<Discovered>, pair: (string, string))
    requires AllSound(completed, ByPath(discovered))
    ensures pair in Listed(completed)
            <==> exists x :: x in ItemsOf(completed, ByPath(discovered)) && (x.path, x.declaredHash) == pair
  {
    var items := ItemsOf(completed, ByPath(discovered));
    forall i | 0 <= i < |completed|
      ensures items[i] in items && (items[i].path, items[i].declaredHash) == (completed[i].path, completed[i].sha256)
    {
      ByPathKeepsPaths(discovered, completed[i].path);
    }
  }

  lemma PairsHoldListed(completed: seq<RawItem>, discovered: seq<Discovered>, items: seq<Item>, pair: (string, string))
    requires AllSound(completed, ByPath(discovered))
    requires forall x :: x in items <==> x in ItemsOf(completed, ByPath(discovered))
    ensures pair in Pairs(items) <==> pair in Listed(completed)
  {
    ListedInItems(completed, discovered, pair);
    if pair in Listed(completed) {
      var x :| x in ItemsOf(completed, ByPath(discovered)) && (x.path, x.declaredHash) == pair;
      var k :| 0 <= k < |items| && items[k] == x;
      assert Pairs(items)[k] == pair;
    }
    if pair in Pairs(items) {
      var k :| 0 <= k < |items| && Pairs(items)[k] == pair;
      assert items[k] in items;
    }
  }

  /** The same pairs mean the same items: discovery supplies the rest. */
  lemma SameListedSameItems(a: seq<RawItem>, b: seq<RawItem>, discovered: seq<Discovered>, x: Item)
    requires AllSound(a, ByPath(discovered)) && AllSound(b, ByPath(discovered)) && Listed(a) == Listed(b)
    requires x in ItemsOf(a, ByPath(discovered))
    ensures x in ItemsOf(b, ByPath(discovered))
  {
    var byPath := ByPath(discovered);
    var i :| 0 <= i < |a| && ItemsOf(a, byPath)[i] == x;
    assert (a[i].path, a[i].sha256) in Listed(b);
    var j :| 0 <= j < |b| && (b[j].path, b[j].sha256) == (a[i].path, a[i].sha256);
    assert ItemsOf(b, byPath)[j] == x;
  }

  ghost predicate ShortlyNamed(completed: seq<RawItem>) {
    forall i :: 0 <= i < |completed| ==> |completed[i].path| < U32
  }

  lemma LoadedPathsShort(completed: seq<RawItem>, discovered: seq<Discovered>, items: seq<Item>)
    requires AllSound(completed, ByPath(discovered)) && ShortlyNamed(completed)
    requires forall x :: x in items ==> x in ItemsOf(completed, ByPath(discovered))
    ensures ShortPaths(items)
  {
    forall k | 0 <= k < |items| ensures |items[k].path| < U32 {
      assert items[k] in items;
      var i :| 0 <= i < |completed| && ItemsOf(completed, ByPath(discovered))[i] == items[k];
      ByPathKeepsPaths(discovered, completed[i].path);
    }
  }

  /** For one discovered set, two accepted manifests have the same canonical bytes exactly
      when they list the same paths with the same hashes: order does not matter, and
      nothing else does. */
  lemma FingerprintsAgreeExactly(v: nat, a: seq<RawItem>, w: nat, b: seq<RawItem>, discovered: seq<Discovered>)
    requires Loaded(v, a, discovered).Success? && Loaded(w, b, discovered).Success?
    requires ShortlyNamed(a) && ShortlyNamed(b)
    ensures Loaded(v, a, discovered).value.canonical == Loaded(w, b, discovered).value.canonical
            <==> Listed(a) == Listed(b)
  {
    LoadedIsSorted(v, a, discovered);
    LoadedIsSorted(w, b, discovered);
    var x, y := Loaded(v, a, discovered).value.items, Loaded(w, b, discovered).value.items;
    LoadedPathsShort(a, discovered, x);
    LoadedPathsShort(b, discovered, y);
    BytesArePairs(1, x, y);
    if Pairs(x) == Pairs(y) {
      forall pair ensures pair in Listed(a) <==> pair in Listed(b) {
        PairsHoldListed(a, discovered, x, pair);
        PairsHoldListed(b, discovered, y, pair);
      }
    }
    if Listed(a) == Listed(b) {
      forall item ensures item in x <==> item in y {
        if item in x { SameListedSameItems(a, b, discovered, item); }
        if item in y { SameListedSameItems(b, a, discovered, item); }
      }
      OneSortedOrder(x, y);
    }
  }
}
