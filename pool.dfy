/**
 * The bounded pool of store connections (`ConnectionPool` in database.py).
 *
 * The pool is a FIFO queue with capacity `poolSize` holding idle handles.
 * A handle is named by the order in which it was created, so a freshly
 * created handle is always `created` before the call. There are no threads
 * here: a `get` on an empty queue can only end in the five-second timeout,
 * so `GetConnection` reports a timeout exactly when the queue was empty and
 * then falls back to a new handle, as the source does.
 */
module Pool {

  type Handle = nat

  class ConnectionPool {
    /** `pool_size`; as with Python's Queue, a size <= 0 means an unbounded queue. */
    const poolSize: int
    /** The handles waiting in the queue, oldest first. */
    var idle: seq<Handle>
    /** Handles lent out by `GetConnection` and not yet given back. */
    var outstanding: set<Handle>
    /** Handles that have been closed. */
    var closed: set<Handle>
    /** How many handles `_create_connection` has made; their names are 0 .. created-1. */
    var created: nat

    /** `Queue.full()`: only a bounded queue can be full. */
    predicate Full()
      reads this
    {
      poolSize > 0 && |idle| >= poolSize
    }

    /** The pool never holds more than `poolSize` idle handles, each handle is
        in at most one place, and closed handles are never handed out again. */
    ghost predicate Valid()
      reads this
    {
      && (poolSize > 0 ==> |idle| <= poolSize)
      && (forall i, j :: 0 <= i < j < |idle| ==> idle[i] != idle[j])
      && (forall i :: 0 <= i < |idle| ==> idle[i] < created && idle[i] !in outstanding && idle[i] !in closed)
      && (forall h :: h in outstanding ==> h < created && h !in closed)
      && (forall h :: h in closed ==> h < created)
    }

    /** `__init__` with `_init_pool`: the queue is pre-filled to capacity. */
    constructor (poolSize: int)
      ensures Valid()
      ensures this.poolSize == poolSize
      ensures |idle| == (if poolSize > 0 then poolSize else 0)
      ensures forall i :: 0 <= i < |idle| ==> idle[i] == i
      ensures created == |idle| && outstanding == {} && closed == {}
    {
      this.poolSize := poolSize;
      idle, outstanding, closed, created := [], {}, {}, 0;
      new;
      var k := 0;
      while k < poolSize
        invariant 0 <= k && (poolSize > 0 ==> k <= poolSize) && (poolSize <= 0 ==> k == 0)
        invariant |idle| == k && created == k
        invariant forall i :: 0 <= i < |idle| ==> idle[i] == i
        invariant outstanding == {} && closed == {}
      {
        var h := CreateConnection();
        // the queue holds k < poolSize handles, so `put` does not block
        idle := idle + [h];
        k := k + 1;
      }
    }

    /** `_create_connection`: a new, never used handle. */
    method CreateConnection() returns (h: Handle)
      modifies this`created
      ensures h == old(created) && created == old(created) + 1
    {
      h := created;
      created := created + 1;
    }

    /** Entering `get_connection`: take the oldest idle handle, or, when the
        wait times out on an empty queue, a freshly created one. */
    method GetConnection() returns (h: Handle, timedOut: bool)
      requires Valid()
      modifies this
      ensures Valid()
      ensures timedOut <==> old(idle) == []
      ensures !timedOut ==> h == old(idle)[0] && idle == old(idle)[1..] && created == old(created)
      ensures timedOut ==> h == old(created) && created == old(created) + 1 && idle == []
      ensures h !in old(outstanding) && outstanding == old(outstanding) + {h}
      ensures closed == old(closed)
    {
      if idle != [] {
        h, timedOut := idle[0], false;
        idle := idle[1..];
      } else {
        timedOut := true;
        h := CreateConnection();
      }
      outstanding := outstanding + {h};
    }

    /** Leaving `get_connection` (the `finally` block): `put_nowait` the handle
        back, or close it when the queue is full. A fallback handle is put
        back like any other. */
    method ReleaseConnection(h: Handle) returns (kept: bool)
      requires Valid() && h in outstanding
      modifies this
      ensures Valid()
      ensures kept <==> !old(Full())
      ensures kept ==> idle == old(idle) + [h] && closed == old(closed)
      ensures !kept ==> idle == old(idle) && closed == old(closed) + {h}
      ensures outstanding == old(outstanding) - {h} && created == old(created)
    {
      if !Full() {
        idle := idle + [h];
        kept := true;
      } else {
        closed := closed + {h};
        kept := false;
      }
      outstanding := outstanding - {h};
    }

    /** One `with self.pool.get_connection() as conn:` block whose body
        borrows no other handle. The handle always goes back into the queue:
        either the queue just gave one up, or it was empty; so a fallback
        handle made on a timeout ends up pooled rather than closed. */
    method WithConnection() returns (h: Handle, timedOut: bool)
      requires Valid()
      modifies this
      ensures Valid()
      ensures outstanding == old(outstanding) && closed == old(closed)
      ensures !timedOut ==> old(idle) != [] && h == old(idle)[0] && idle == old(idle)[1..] + [h]
      ensures timedOut ==> old(idle) == [] && h == old(created) && idle == [h]
    {
      h, timedOut := GetConnection();
      var kept := ReleaseConnection(h);
      assert kept;
    }

    /** `close_all`: drain the queue, closing every idle handle. Handles that
        are lent out stay open. */
    method CloseAll()
      requires Valid()
      modifies this
      ensures Valid()
      ensures idle == []
      ensures forall h :: h in closed <==> h in old(closed) || h in old(idle)
      ensures outstanding == old(outstanding) && created == old(created)
    {
      while idle != []
        invariant Valid()
        invariant outstanding == old(outstanding) && created == old(created)
        invariant forall h :: h in closed || h in idle <==> h in old(closed) || h in old(idle)
        decreases |idle|
      {
        var h := idle[0];
        idle := idle[1..];
        closed := closed + {h};
      }
    }
  }
}
