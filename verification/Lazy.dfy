/** The versioned shared cell (conc.cc): its 32-bit versions, what one undisturbed call of each
    function does, and the two functions themselves. */
module Lazy {
  import opened Ctrl

  const INT_MAX := 0x7FFF_FFFF
  const INT_MIN := -0x8000_0000

  /** Highest publication number at which 32-bit versions still identify publications. */
  const LAST_EXACT := 0xFFFF_FFFE

  /** `++v` on a 32-bit int that wraps around. */
  function Inc32(v: int): int {
    if v == INT_MAX then INT_MIN else v + 1
  }

  /** The 32-bit version of publication k. Index -1 stands for "nothing read yet". */
  function Ver(k: int): int {
    (k + 0x8000_0000) % 0x1_0000_0000 - 0x8000_0000
  }

  lemma VerSteps(k: int)
    ensures Ver(k + 1) == Inc32(Ver(k))
    ensures Ver(-1) == -1 && Ver(0) == 0
  {
  }

  lemma VerInjective(a: int, b: int)
    requires -1 <= a <= LAST_EXACT && -1 <= b <= LAST_EXACT && Ver(a) == Ver(b)
    ensures a == b
  {
  }

  /** Comparing versions tells publications 0..n and the readers' initial -1 apart exactly up to
      2^32 - 2 publications. */
  lemma VersionsIdentify(n: nat)
    ensures (forall a, b :: -1 <= a < b <= n ==> Ver(a) != Ver(b)) <==> n <= LAST_EXACT
  {
    if n <= LAST_EXACT {
      forall a, b | -1 <= a < b <= n
        ensures Ver(a) != Ver(b)
      {
        if Ver(a) == Ver(b) {
          VerInjective(a, b);
        }
      }
    } else {
      assert Ver(-1) == Ver(0xFFFF_FFFF);
    }
  }

  /** The increments never overflow, so versions are the publication numbers themselves,
      exactly up to 2^31 - 1 publications. */
  lemma VersionsNeverOverflow(n: nat)
    ensures (forall k :: -1 <= k <= n ==> Ver(k) == k) <==> n <= INT_MAX
  {
    if n > INT_MAX {
      assert Ver(INT_MAX + 1) == INT_MIN;
    }
  }

  // ---------- one call with no other thread running ----------

  datatype Published = Published(version: int, shared: Record, result: int)
  datatype Polled = Polled(local: Record, result: int)

  function Publish(version: int, shared: Record, tv: int, local: Record): Published {
    if tv == version then Published(Inc32(version), Overwrite(shared, View(local)), Inc32(version))
    else Published(version, shared, version)
  }

  function Poll(version: int, shared: Record, tv: int, local: Record): Polled {
    if tv == version then Polled(local, tv) else Polled(Overwrite(local, View(shared)), version)
  }

  /** A poll that follows a publication, at whatever version the reader stood, delivers it
      unless the stale version happens to equal the new one. */
  lemma PollDelivers(version: int, shared: Record, tv: int, local: Record, rv: int, reader: Record)
    requires tv == version
    ensures var p := Publish(version, shared, tv, local);
            var q := Poll(p.version, p.shared, rv, reader);
            q.result == Inc32(version) &&
            (View(q.local) == View(local) <==> rv != Inc32(version) || View(reader) == View(local))
  {
  }

  class LazyCell {
    var version: int
    var locked: bool

    constructor LazyInit(initialVersion: int)
      ensures version == initialVersion && !locked
    {
      version, locked := initialVersion, false;
    }

    method UpdateGlobalIfOwner(tv: int, local: Block, shared: Block) returns (r: int)
      requires !locked
      requires local.Valid() && shared.Valid() && local != shared && local.data != shared.data
      modifies this, shared, shared.data
      ensures !locked && shared.Valid()
      ensures Published(version, shared.Value(), r)
              == Publish(old(version), old(shared.Value()), tv, old(local.Value()))
    {
      if tv == version {
        locked := true;
        var next := Inc32(tv);
        version := next;
        CopyLocalToShared(local, shared);
        locked := false;
        return next;
      } else {
        return version;
      }
    }

    method UpdateLocalIfChanged(tv: int, local: Block, shared: Block) returns (r: int)
      requires !locked
      requires local.Valid() && shared.Valid() && local != shared && local.data != shared.data
      modifies this`locked, local, local.data
      ensures !locked && local.Valid()
      ensures Polled(local.Value(), r) == Poll(version, shared.Value(), tv, old(local.Value()))
    {
      if tv == version {
        return tv;
      } else {
        locked := true;
        r := version;
        CopySharedToLocal(local, shared);
        locked := false;
      }
    }
  }
}
