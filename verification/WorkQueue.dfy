/** The work queue of client-go, by its sets: an item is handed out to one worker at a time. */
module WorkQueue {
  import Base

  /**
   * ready lists the items to hand out; dirty holds those that need processing, processing those
   * handed out, oldest first. An item added while it is being processed becomes ready when it is released.
   */
  datatype Queue<T(==)> = Queue(ready: seq<T>, dirty: set<T>, processing: set<T>)
  {
    ghost predicate Valid() {
      && Base.Distinct(ready)
      && (forall x :: x in ready ==> x in dirty && x !in processing)
      && (forall x :: x in dirty && x !in processing ==> x in ready)
    }

    function Add(x: T): (q: Queue<T>)
      ensures Valid() ==> q.Valid()
      ensures q.dirty == dirty + {x} && q.processing == processing
      ensures ready <= q.ready <= ready + [x]
    {
      if x in dirty then this
      else if x in processing then this.(dirty := dirty + {x})
      else this.(dirty := dirty + {x}, ready := ready + [x])
    }

    function Get(): (q: Queue<T>)
      requires ready != []
      ensures Valid() ==> q.Valid()
      ensures q.processing == processing + {ready[0]} && q.dirty == dirty - {ready[0]}
      ensures [ready[0]] + q.ready == ready
    {
      assert ready == [ready[0]] + ready[1..];
      Queue(ready[1..], dirty - {ready[0]}, processing + {ready[0]})
    }

    function Done(x: T): (q: Queue<T>)
      ensures Valid() && x in processing ==> q.Valid()
      ensures q.processing == processing - {x} && q.dirty == dirty
      ensures ready <= q.ready <= ready + [x]
    {
      if x in dirty then this.(processing := processing - {x}, ready := ready + [x])
      else this.(processing := processing - {x})
    }
  }
}
