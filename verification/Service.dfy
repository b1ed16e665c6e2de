/** internal/service/service.go: queueing a task and waking a worker. */
module Service {
  import opened Domain
  import opened Store
  import opened Repository

  /** A channel of capacity one, sent to without blocking. */
  class WakeSlot {
    var full: bool

    constructor ()
      ensures !full
    {
      full := false;
    }

    method Notify()
      modifies this
      ensures full
    {
      full := true;
    }
  }

  class Service {
    const repo: Repository
    const wake: WakeSlot

    constructor (repo: Repository, wake: WakeSlot)
      ensures this.repo == repo && this.wake == wake
    {
      this.repo := repo;
      this.wake := wake;
    }

    /** The post, and a signal exactly when the task answered with is waiting: not
        for one in progress or finished, and not for an error. */
    method CreateTask(pair: Pair, key: Option<Key>, id: Id, read: Fate, write: Fate) returns (r: Result<Task>)
      requires repo.Valid()
      modifies repo, wake
      ensures repo.Valid()
      ensures read == Delivered && write == Delivered ==>
                Stepped(repo.Db(), r) == AtomicPost(old(repo.Db()), repo.keyTtl, pair, key, id)
      ensures Posted(old(repo.Db()), repo.keyTtl, pair, key, id, read, write, Stepped(repo.Db(), r))
      ensures r.Ok? && key.Some? ==> repo.Bound(key.value, r.value.id)
      ensures wake.full <==> old(wake.full) || (r.Ok? && r.value.status == Pending)
    {
      r := repo.CreateTask(pair, key, id, read, write);
      if r.Ok? && r.value.status == Pending {
        wake.Notify();
      }
    }
  }
}
