/** The cache of header results and its eviction by age. The decision tree of each file is
    `CacheTrees.CacheIndex`; here it is the finite map that tree stands for. */
module HeaderCaches {
  import opened Macros
  import opened Replay
  import HC = HeaderContexts

  const CLEANUP_PERIOD := 1024 * 2
  const HISTORY_LENGTH := 8 * CLEANUP_PERIOD

  /** Everything not hit since this time is removed. */
  function Cutoff(now: nat): nat {
    if now > HISTORY_LENGTH then now - HISTORY_LENGTH else now / 5
  }

  /** The last hit of every entry once the hits noted since the last cleanup count. */
  function Refreshed(lastTimeHit: map<Key, nat>, noted: map<Key, nat>): map<Key, nat> {
    map k | k in lastTimeHit :: if k in noted then noted[k] else lastTimeHit[k]
  }

  class Cache {
    var entries: CacheMap
    var lastTimeHit: map<Key, nat>
    var tempLastTimeHit: map<Key, nat>
    var hits: nat
    var misses: nat

    ghost predicate Valid()
      reads this
    {
      lastTimeHit.Keys == entries.Keys && tempLastTimeHit.Keys <= entries.Keys
    }

    /** When an entry has last been hit, counted in lookups. */
    ghost function LastHit(k: Key): nat
      requires k in lastTimeHit
      reads this
    {
      if k in tempLastTimeHit then tempLastTimeHit[k] else lastTimeHit[k]
    }

    /** A cleanup lets an entry go exactly if it has not been hit within the last 16384
        lookups or, before there have been so many, since the first fifth of them. */
    lemma StaleByNumber(k: Key)
      requires Valid()
      ensures k in Stale() <==>
        k in entries && var now := hits + misses; if now > 16384 then LastHit(k) < now - 16384 else 5 * (LastHit(k) + 1) <= now
    {
    }

    constructor ()
      ensures Valid() && entries == map[] && hits == misses == 0
    {
      entries, lastTimeHit, tempLastTimeHit, hits, misses := map[], map[], map[], 0, 0;
    }

    /** The entries a cleanup at this moment lets go. */
    ghost function Stale(): set<Key>
      reads this
    {
      set k | k in lastTimeHit && Refreshed(lastTimeHit, tempLastTimeHit)[k] < Cutoff(hits + misses)
    }

    /** Looks a state up, counts a hit or a miss, and cleans up every so often. */
    method FindEntry(f: FileId, m: MacroState) returns (hit: HC.Hit, ghost gone: set<Key>)
      requires Valid()
      modifies this
      ensures Valid() && entries == old(entries) - gone
      ensures hits + misses == old(hits + misses) + 1
      ensures (hits + misses) % 2048 != 0 ==> gone == {}
      ensures (hits + misses) % 2048 == 0 ==> forall k {:trigger k in gone} :: k in gone ==>
        k in old(entries) && old(LastHit(k)) + (if hits + misses > 16384 then 16384 else 0) < hits + misses
      ensures forall k {:trigger LastHit(k)} :: k in entries ==>
        LastHit(k) == if hit.Hit? && k == (f, hit.path) then old(hits + misses) else old(LastHit(k))
      ensures hit == HC.Miss <==> !IsHit(old(entries), f, m.values)
      ensures hit.Hit? ==> HitPath(old(entries), f, m.values, hit.path) && hit.entry == old(entries)[(f, hit.path)]
      ensures hit.Hit? ==> (f, hit.path) !in gone
    {
      if k :| k in entries && k.0 == f && Matches(k.1, m.values) {
        assert HitPath(entries, f, m.values, k.1);
        hit := HC.Hit(k.1, entries[k]);
        tempLastTimeHit := tempLastTimeHit[k := hits + misses];
        hits := hits + 1;
      } else {
        assert forall p :: HitPath(entries, f, m.values, p) ==> (f, p) in entries;
        hit := HC.Miss;
        misses := misses + 1;
      }
      gone := Maintenance();
    }

    /** Every CLEANUP_PERIOD lookups: counts the noted hits, then removes the entries whose
        last hit is too old. */
    method Maintenance() returns (ghost gone: set<Key>)
      requires Valid()
      modifies this`entries, this`lastTimeHit, this`tempLastTimeHit
      ensures Valid()
      ensures gone == if (hits + misses) % CLEANUP_PERIOD == 0 then old(Stale()) else {}
      ensures entries == old(entries) - gone
      ensures forall k {:trigger LastHit(k)} :: k in entries ==> LastHit(k) == old(LastHit(k))
    {
      gone := {};
      var now := hits + misses;
      if now % CLEANUP_PERIOD != 0 {
        return;
      }
      gone := Stale();
      CountNotedHits();
      RemoveOlderThan(Cutoff(now));
    }

    method CountNotedHits()
      requires Valid()
      modifies this`lastTimeHit, this`tempLastTimeHit
      ensures Valid() && lastTimeHit == Refreshed(old(lastTimeHit), old(tempLastTimeHit)) && tempLastTimeHit == map[]
    {
      var rest := tempLastTimeHit.Keys;
      while rest != {}
        invariant rest <= tempLastTimeHit.Keys && tempLastTimeHit == old(tempLastTimeHit)
        invariant lastTimeHit.Keys == old(lastTimeHit).Keys
        invariant forall k :: k in lastTimeHit ==>
          lastTimeHit[k] == if k in tempLastTimeHit && k !in rest then tempLastTimeHit[k] else old(lastTimeHit)[k]
        decreases rest
      {
        var k :| k in rest;
        if k in entries {
          lastTimeHit := lastTimeHit[k := tempLastTimeHit[k]];
        }
        rest := rest - {k};
      }
      tempLastTimeHit := map[];
    }

    method RemoveOlderThan(cutoff: nat)
      requires Valid() && tempLastTimeHit == map[]
      modifies this`entries, this`lastTimeHit
      ensures Valid() && forall k :: k in lastTimeHit ==> k in old(lastTimeHit) && lastTimeHit[k] == old(lastTimeHit)[k]
      ensures entries == old(entries) - (set k | k in old(lastTimeHit) && old(lastTimeHit)[k] < cutoff)
    {
      while exists k :: k in lastTimeHit && lastTimeHit[k] < cutoff
        invariant Valid() && lastTimeHit.Keys <= old(lastTimeHit).Keys
        invariant forall k :: k in lastTimeHit ==> lastTimeHit[k] == old(lastTimeHit)[k]
        invariant forall k :: k in old(lastTimeHit) && k !in lastTimeHit ==> old(lastTimeHit)[k] < cutoff
        invariant entries == map k | k in old(entries) && k in lastTimeHit :: old(entries)[k]
        decreases lastTimeHit.Keys
      {
        var k :| k in lastTimeHit && lastTimeHit[k] < cutoff;
        entries := entries - {k};
        lastTimeHit := lastTimeHit - {k};
      }
    }

    /** Adds an entry for a path unless it has one already; hands back the one kept. */
    method AddEntry(f: FileId, used: seq<Macro>, e: Entry) returns (hit: HC.Hit)
      requires Valid()
      modifies this`entries, this`lastTimeHit
      ensures Valid()
      ensures entries == if (f, used) in old(entries) then old(entries) else old(entries)[(f, used) := e]
      ensures hit == HC.Hit(used, entries[(f, used)])
      ensures forall k {:trigger LastHit(k)} :: k in entries ==>
        if k in old(entries) then LastHit(k) == old(LastHit(k)) else LastHit(k) == (hits + misses) / 2
    {
      if (f, used) !in entries {
        entries := entries[(f, used) := e];
        lastTimeHit := lastTimeHit[(f, used) := (hits + misses) / 2];
      }
      hit := HC.Hit(used, entries[(f, used)]);
    }
  }
}
