/** The access queue of the language server (internal/lsp/repo/access_queue.go): request ids in
    arrival order, so that a request reads the repository only once the requests before it
    are done. The mutex is not modelled, and the spin loop of `AwaitUnblock` becomes the
    condition it waits for. */
module AccessQueue {
  import Seqs

  datatype Item = Item(id: string)

  function ItemId(x: Item): string {
    x.id
  }

  /** The condition `AwaitUnblock` spins on: the queue is empty or its head has the id. */
  predicate Unblocked(items: seq<Item>, item: Item) {
    |items| == 0 || items[0].id == item.id
  }

  /** `AccessQueue`: the ids of the requests in flight, oldest first. */
  class AccessQueue {
    var items: seq<Item>

    constructor ()
      ensures items == []
    {
      items := [];
    }

    /** `AwaitUnblock`, as the condition under which it returns. */
    predicate IsUnblocked(item: Item)
      reads this
    {
      Unblocked(items, item)
    }

    /** `Add`: the item goes to the back. */
    method Add(item: Item)
      modifies this
      ensures items == old(items) + [item]
      ensures old(items) == [] ==> IsUnblocked(item)
    {
      items := items + [item];
    }

    /** `Remove`: the first item with the id leaves the queue; nothing changes when no item
        has it. */
    method Remove(item: Item)
      modifies this
      ensures items == Seqs.RemoveFirstKey(old(items), ItemId, item.id)
    {
      var i := 0;
      while i < |items|
        invariant 0 <= i <= |items| && items == old(items)
        invariant forall j :: 0 <= j < i ==> items[j].id != item.id
      {
        if items[i].id == item.id {
          items := items[..i] + items[i + 1..];
          return;
        }
        i := i + 1;
      }
    }
  }

  /** A fresh id added at the back waits exactly when some request is ahead of it; removing
      it again restores the queue. */
  lemma AddThenRemove(items: seq<Item>, item: Item)
    requires forall j :: 0 <= j < |items| ==> items[j].id != item.id
    ensures Unblocked(items + [item], item) <==> items == []
    ensures Seqs.RemoveFirstKey(items + [item], ItemId, item.id) == items
  {
    Seqs.RemoveFirstKeyAppended(items, item, ItemId);
  }

  /** Once the head leaves the queue, the next item is unblocked. */
  lemma RemovingHeadUnblocksNext(items: seq<Item>)
    requires |items| >= 2
    ensures Unblocked(Seqs.RemoveFirstKey(items, ItemId, items[0].id), items[1])
  {
  }
}
