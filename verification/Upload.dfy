/** One upload: copy, compare the remote listing with the manifest, and only then give up the local data. */
module Upload {
  import opened Options
  import BatchLifecycle

  datatype CopyMode = Copy | CopyTo | CopyFiles

  /** `local` and `remote` are empty when they can be worked out neither from the item nor from the job. */
  datatype Item = Item(path: string, size: int, local: string, remote: string)

  datatype Job = Job(hash: string, local: string, remote: string, size: int, fullTorrent: bool, files: seq<Item>,
                     mode: CopyMode)

  /** One row of a remote listing. */
  datatype Listed = Listed(path: string, isDir: bool, size: int)

  /** What rclone answers during one run. */
  datatype Rclone = Rclone(copied: bool, copyTo: (string, string) -> bool, listing: seq<Listed>,
                           remoteSize: Option<int>)

  datatype State = RetryWait | VerifyPending | Done | CleanupDeferred

  datatype Result = Result(state: State, remoteVerified: bool, cleanupAllowed: bool)

  /** Slashes one way round, and none in front. */
  function Rel(path: string): string {
    Strip(Slashes(path))
  }

  function Slashes(path: string): string {
    seq(|path|, i requires 0 <= i < |path| => if path[i] == '\\' then '/' else path[i])
  }

  function Strip(path: string): string {
    if path != "" && path[0] == '/' then Strip(path[1..]) else path
  }

  predicate IsSlash(c: char) {
    c == '/' || c == '\\'
  }

  /** The path without the slashes in front, and with those left all one way round. */
  lemma {:induction false} RelMeans(path: string) returns (n: nat)
    ensures n <= |path| && (forall i :: 0 <= i < n ==> IsSlash(path[i])) && (n < |path| ==> !IsSlash(path[n]))
    ensures |Rel(path)| == |path| - n
    ensures forall i :: 0 <= i < |Rel(path)| ==> Rel(path)[i] == if IsSlash(path[n + i]) then '/' else path[n + i]
  {
    var slashed := Slashes(path);
    n := StripMeans(slashed);
    assert Rel(path) == slashed[n..];
    forall i | 0 <= i < n ensures IsSlash(path[i]) {
      assert slashed[i] == '/';
    }
    assert n < |path| ==> slashed[n] != '/';
  }

  lemma {:induction false} StripMeans(path: string) returns (n: nat)
    ensures n <= |path| && (forall i :: 0 <= i < n ==> path[i] == '/') && (n < |path| ==> path[n] != '/')
    ensures Strip(path) == path[n..]
  {
    n := 0;
    if path != "" && path[0] == '/' {
      var m := StripMeans(path[1..]);
      n := m + 1;
      forall i | 0 <= i < n ensures path[i] == '/' {
        if i > 0 {
          assert path[1..][i - 1] == '/';
        }
      }
    }
  }

  predicate Counts(l: Listed) {
    !l.isDir && Rel(l.path) != ""
  }

  /** The sizes by path; a path listed twice counts with its last size. */
  function Sizes(listing: seq<Listed>): map<string, int> {
    if listing == [] then map[]
    else
      var n := |listing| - 1;
      var before := Sizes(listing[..n]);
      if Counts(listing[n]) then before[Rel(listing[n].path) := listing[n].size] else before
  }

  function Total(files: seq<Item>): int {
    if files == [] then 0 else Total(files[..|files| - 1]) + files[|files| - 1].size
  }

  predicate Matches(listing: seq<Listed>, f: Item) {
    var sizes := Sizes(listing);
    Rel(f.path) in sizes && sizes[Rel(f.path)] == f.size
  }

  predicate ManifestVerified(job: Job, listing: seq<Listed>) {
    (forall f :: f in job.files ==> Matches(listing, f)) && Total(job.files) == job.size
  }

  /** No path is listed twice. */
  ghost predicate Distinct(listing: seq<Listed>) {
    forall i, j :: 0 <= i < j < |listing| && Counts(listing[i]) && Counts(listing[j]) ==>
      Rel(listing[i].path) != Rel(listing[j].path)
  }

  predicate IsListed(listing: seq<Listed>, path: string, size: int) {
    exists l :: l in listing && !l.isDir && path != "" && Rel(l.path) == path && l.size == size
  }

  /** A recorded size was listed, and in a listing without repetitions every listed size is recorded. */
  lemma {:induction false} SizesAreListed(listing: seq<Listed>, path: string)
    ensures path in Sizes(listing) ==> IsListed(listing, path, Sizes(listing)[path])
    ensures path !in Sizes(listing) ==> forall l :: l in listing && Counts(l) ==> Rel(l.path) != path
    ensures Distinct(listing) ==> forall size :: IsListed(listing, path, size) ==>
      path in Sizes(listing) && Sizes(listing)[path] == size
  {
    hide Rel;
    if listing != [] {
      var n := |listing| - 1;
      var rest := listing[..n];
      SizesAreListed(rest, path);
      assert forall l :: l in listing <==> l in rest || l == listing[n];
      if path in Sizes(rest) && !(Counts(listing[n]) && Rel(listing[n].path) == path) {
        var l :| l in rest && Counts(l) && Rel(l.path) == path && l.size == Sizes(rest)[path];
        assert l in listing;
      }
      if Distinct(listing) {
        forall size | IsListed(listing, path, size) ensures path in Sizes(listing) && Sizes(listing)[path] == size {
          var l :| l in listing && Counts(l) && Rel(l.path) == path && l.size == size;
          if l in rest {
            assert IsListed(rest, path, size);
            var k :| 0 <= k < n && rest[k] == l;
            assert listing[k] == l;
          }
        }
      }
    }
  }

  /**
   Against a listing without repetitions, a manifest is verified exactly when each of its files is
   listed with its size and the sizes add up to the size of the job.
   */
  lemma VerifiedMeansListed(job: Job, listing: seq<Listed>)
    requires Distinct(listing)
    ensures ManifestVerified(job, listing) <==>
      && (forall f :: f in job.files ==> IsListed(listing, Rel(f.path), f.size))
      && Total(job.files) == job.size
  {
    forall f | f in job.files ensures Matches(listing, f) <==> IsListed(listing, Rel(f.path), f.size) {
      SizesAreListed(listing, Rel(f.path));
    }
  }

  /** A file of the manifest that was left out, or stored with another size, is never verified. */
  lemma NothingMissingIsVerified(job: Job, listing: seq<Listed>, f: Item)
    requires f in job.files && !IsListed(listing, Rel(f.path), f.size)
    ensures !ManifestVerified(job, listing)
  {
    SizesAreListed(listing, Rel(f.path));
    assert !Matches(listing, f);
  }

  predicate Sendable(f: Item) {
    f.local != "" && f.remote != ""
  }

  /** The copies made one by one, up to the first that fails or cannot be made. */
  function Sent(files: seq<Item>, rclone: Rclone): seq<(string, string)> {
    if files == [] || !Sendable(files[0]) then []
    else if !rclone.copyTo(files[0].local, files[0].remote) then [(files[0].local, files[0].remote)]
    else [(files[0].local, files[0].remote)] + Sent(files[1..], rclone)
  }

  predicate AllSent(files: seq<Item>, rclone: Rclone) {
    forall f :: f in files ==> Sendable(f) && rclone.copyTo(f.local, f.remote)
  }

  predicate CopySucceeds(job: Job, rclone: Rclone) {
    if job.files == [] || job.mode.CopyTo? then rclone.copyTo(job.local, job.remote)
    else if job.mode.CopyFiles? then AllSent(job.files, rclone)
    else rclone.copied
  }

  predicate Verifies(job: Job, rclone: Rclone) {
    if job.files == [] then rclone.remoteSize == Some(job.size) else ManifestVerified(job, rclone.listing)
  }

  /** What the batch state machine is told about a batch's upload. */
  function ForBatch(s: State): BatchLifecycle.UploadResult
    requires !s.Done?
  {
    match s
    case RetryWait => BatchLifecycle.CopyFailed
    case VerifyPending => BatchLifecycle.Mismatch
    case CleanupDeferred => BatchLifecycle.Verified
  }

  class RcloneUploadWorker {
    var copies: seq<(string, string)>
    var deleted: seq<string>

    constructor ()
      ensures copies == [] && deleted == []
    {
      copies, deleted := [], [];
    }

    method CopyEachFile(job: Job, rclone: Rclone) returns (ok: bool)
      modifies this`copies
      ensures ok <==> AllSent(job.files, rclone)
      ensures copies == old(copies) + Sent(job.files, rclone)
    {
      for i := 0 to |job.files|
        invariant forall k :: 0 <= k < i ==>
          Sendable(job.files[k]) && rclone.copyTo(job.files[k].local, job.files[k].remote)
        invariant copies + Sent(job.files[i..], rclone) == old(copies) + Sent(job.files, rclone)
      {
        var f := job.files[i];
        assert job.files[i..][1..] == job.files[i + 1..];
        if f.local == "" || f.remote == "" {
          return false;
        }
        copies := copies + [(f.local, f.remote)];
        if !rclone.copyTo(f.local, f.remote) {
          return false;
        }
      }
      ok := true;
    }

    method VerifyManifest(job: Job, listing: seq<Listed>) returns (ok: bool)
      ensures ok <==> ManifestVerified(job, listing)
    {
      var actual: map<string, int> := map[];
      for i := 0 to |listing|
        invariant actual == Sizes(listing[..i])
      {
        assert listing[..i + 1][..i] == listing[..i];
        if !listing[i].isDir {
          var rel := Rel(listing[i].path);
          if rel != "" {
            actual := actual[rel := listing[i].size];
          }
        }
      }
      assert listing[..|listing|] == listing;
      var expected := 0;
      for i := 0 to |job.files|
        invariant expected == Total(job.files[..i])
        invariant forall k :: 0 <= k < i ==> Matches(listing, job.files[k])
      {
        assert job.files[..i + 1][..i] == job.files[..i];
        var rel := Rel(job.files[i].path);
        expected := expected + job.files[i].size;
        if rel !in actual || actual[rel] != job.files[i].size {
          assert !Matches(listing, job.files[i]);
          return false;
        }
      }
      assert job.files[..|job.files|] == job.files;
      ok := expected == job.size;
    }

    /**
     The local data goes, and the job is done, only for a whole torrent that was copied and verified; a
     verified batch is left to a cleanup request.
     */
    method RunOnce(job: Job, rclone: Rclone) returns (r: Result)
      modifies this
      ensures r.remoteVerified <==> CopySucceeds(job, rclone) && Verifies(job, rclone)
      ensures r.cleanupAllowed <==> r.remoteVerified && job.fullTorrent
      ensures r.state.RetryWait? <==> !CopySucceeds(job, rclone)
      ensures r.state.VerifyPending? <==> CopySucceeds(job, rclone) && !Verifies(job, rclone)
      ensures r.state.Done? <==> r.cleanupAllowed
      ensures copies == old(copies) + if job.files != [] && job.mode.CopyFiles? then Sent(job.files, rclone)
        else [(job.local, job.remote)]
      ensures deleted == old(deleted) + if r.state.Done? then [job.hash] else []
      ensures !job.fullTorrent ==>
        && !r.state.Done?
        && (ForBatch(r.state).Verified? <==> r.remoteVerified)
    {
      if job.files != [] {
        var copied := rclone.copied;
        if job.mode.CopyFiles? {
          copied := CopyEachFile(job, rclone);
        } else if job.mode.CopyTo? {
          copies := copies + [(job.local, job.remote)];
          copied := rclone.copyTo(job.local, job.remote);
        } else {
          copies := copies + [(job.local, job.remote)];
        }
        if !copied {
          return Result(RetryWait, false, false);
        }
        var verified := VerifyManifest(job, rclone.listing);
        if !verified {
          return Result(VerifyPending, false, false);
        }
      } else {
        copies := copies + [(job.local, job.remote)];
        if !rclone.copyTo(job.local, job.remote) {
          return Result(RetryWait, false, false);
        }
        if rclone.remoteSize != Some(job.size) {
          return Result(VerifyPending, false, false);
        }
      }
      if job.fullTorrent {
        deleted := deleted + [job.hash];
        return Result(Done, true, true);
      }
      r := Result(CleanupDeferred, true, false);
    }
  }
}
