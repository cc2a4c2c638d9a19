/** struct state: the lock, the cache and the dataset, from init to the destructor. */
module SharedState {

  datatype Mode = Fast | Light

  /** How often a resource was allocated and freed. */
  datatype Usage = Usage(allocs: nat, frees: nat)

  /** A resource is live exactly while its pointer is set, and is never allocated or freed twice. */
  predicate Tracks(pointer: bool, u: Usage) {
    u.allocs <= 1 && u.frees + (if pointer then 1 else 0) == u.allocs
  }

  class NifState {
    var lockPtr: bool
    var cachePtr: bool
    var datasetPtr: bool
    var isReleased: bool
    ghost var lock: Usage
    ghost var cache: Usage
    ghost var dataset: Usage

    ghost predicate Valid()
      reads this
    {
      Tracks(lockPtr, lock) && Tracks(cachePtr, cache) && Tracks(datasetPtr, dataset)
    }

    ghost predicate AllFreed()
      reads this
    {
      !lockPtr && !cachePtr && !datasetPtr
      && lock.frees == lock.allocs && cache.frees == cache.allocs && dataset.frees == dataset.allocs
    }

    constructor ()
      ensures Valid() && AllFreed() && !isReleased
      ensures lock.allocs == 0 && cache.allocs == 0 && dataset.allocs == 0
    {
      lockPtr, cachePtr, datasetPtr, isReleased := false, false, false, false;
      lock, cache, dataset := Usage(0, 0), Usage(0, 0), Usage(0, 0);
    }

    method FreeCache()
      requires Valid() && cachePtr
      modifies this`cachePtr, this`cache
      ensures Valid() && !cachePtr && cache == old(cache).(frees := old(cache).frees + 1)
    {
      cachePtr := false;
      cache := cache.(frees := cache.frees + 1);
    }

    method FreeDataset()
      requires Valid() && datasetPtr
      modifies this`datasetPtr, this`dataset
      ensures Valid() && !datasetPtr && dataset == old(dataset).(frees := old(dataset).frees + 1)
    {
      datasetPtr := false;
      dataset := dataset.(frees := dataset.frees + 1);
    }

    method DestroyLock()
      requires Valid() && lockPtr
      modifies this`lockPtr, this`lock
      ensures Valid() && !lockPtr && lock == old(lock).(frees := old(lock).frees + 1)
    {
      lockPtr := false;
      lock := lock.(frees := lock.frees + 1);
    }

    /** Frees what is there; a second call frees nothing. */
    method ReleaseRandomx()
      requires Valid()
      modifies this
      ensures Valid() && isReleased && !datasetPtr && !cachePtr
      ensures lockPtr == old(lockPtr) && lock == old(lock)
      ensures dataset.allocs == old(dataset).allocs == dataset.frees
      ensures cache.allocs == old(cache).allocs == cache.frees
      ensures !old(datasetPtr) && !old(cachePtr) ==> dataset == old(dataset) && cache == old(cache)
    {
      if datasetPtr {
        FreeDataset();
      }
      if cachePtr {
        FreeCache();
      }
      isReleased := true;
    }

    /** The destructor: whatever was allocated has been freed exactly once when it is done. */
    method Destroy()
      requires Valid()
      modifies this
      ensures Valid() && AllFreed() && isReleased
      ensures lock.allocs == old(lock).allocs && cache.allocs == old(cache).allocs && dataset.allocs == old(dataset).allocs
      ensures old(AllFreed()) ==> lock == old(lock) && cache == old(cache) && dataset == old(dataset)
    {
      ReleaseRandomx();
      if lockPtr {
        DestroyLock();
      }
    }

    /** Cleans up after a failed allocation. */
    method InitFailed()
      requires Valid()
      modifies this
      ensures Valid() && AllFreed()
      ensures lock.allocs == old(lock).allocs && cache.allocs == old(cache).allocs && dataset.allocs == old(dataset).allocs
    {
      if lockPtr {
        DestroyLock();
      }
      if cachePtr {
        FreeCache();
      }
      if datasetPtr {
        FreeDataset();
      }
    }

    /**
     * Allocates the lock, the cache and in fast mode the dataset, which is
     * computed from the cache; then the cache is given back. Each Ok flag is
     * the outcome of one allocation or of the dataset computation.
     */
    method Init(mode: Mode, lockOk: bool, cacheOk: bool, datasetOk: bool, computeOk: bool) returns (ok: bool)
      requires Valid() && AllFreed() && !isReleased
      requires lock.allocs == 0 && cache.allocs == 0 && dataset.allocs == 0
      modifies this
      ensures Valid()
      ensures ok <==> lockOk && cacheOk && (mode.Fast? ==> datasetOk && computeOk)
      ensures ok ==> lockPtr && !isReleased && datasetPtr == mode.Fast? && cachePtr == mode.Light?
      ensures ok ==> lock == Usage(1, 0) && cache == (if mode.Fast? then Usage(1, 1) else Usage(1, 0))
                     && dataset == (if mode.Fast? then Usage(1, 0) else Usage(0, 0))
      ensures !ok ==> AllFreed()
    {
      lockPtr := lockOk;
      if !lockOk {
        InitFailed();
        return false;
      }
      lock := Usage(1, 0);
      cachePtr := cacheOk;
      if !cacheOk {
        InitFailed();
        return false;
      }
      cache := Usage(1, 0);
      if mode.Fast? {
        datasetPtr := datasetOk;
        if !datasetOk {
          InitFailed();
          return false;
        }
        dataset := Usage(1, 0);
        if !computeOk {
          InitFailed();
          return false;
        }
        FreeCache();
      }
      ok := true;
    }
  }

  /** Every init outcome followed by the destructor frees each allocation exactly once. */
  method InitThenDestroy(mode: Mode, lockOk: bool, cacheOk: bool, datasetOk: bool, computeOk: bool, released: bool)
    returns (s: NifState)
    ensures fresh(s) && s.Valid() && s.AllFreed()
  {
    s := new NifState();
    var ok := s.Init(mode, lockOk, cacheOk, datasetOk, computeOk);
    if ok && released {
      s.ReleaseRandomx();
    }
    s.Destroy();
  }
}
