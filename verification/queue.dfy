/** The request queue of the language server (internal/lsp/repo/queue.go): requests in arrival
    order, each with an id and an action, so that a diagnostic request can wait for the
    edits queued before it. The mutex that serialises the methods is not modelled. */
module Queue {
  import Seqs

  const DiagnosticAction: string := "diagnostic"
  const EditAction: string := "edit"

  datatype Item = Item(id: string, action: string)

  function ItemId(x: Item): string {
    x.id
  }

  /** The scan of `IsBlocked`: true at the first edit, false at the first item with the id,
      false at the end; items that are not diagnostics are never blocked. */
  function Blocked(items: seq<Item>, item: Item): bool {
    if item.action != DiagnosticAction then false
    else if items == [] then false
    else if items[0].action == EditAction then true
    else if items[0].id == item.id then false
    else Blocked(items[1..], item)
  }

  /** A diagnostic item is blocked exactly when an edit comes before every item carrying its
      id, that is, when some edit has no item with the id ahead of it. */
  lemma {:induction false} BlockedIffEditFirst(items: seq<Item>, item: Item)
    requires item.action == DiagnosticAction
    ensures Blocked(items, item) <==>
              exists k :: 0 <= k < |items| && items[k].action == EditAction
                          && forall j :: 0 <= j < k ==> items[j].id != item.id
  {
    if items != [] && items[0].action != EditAction && items[0].id != item.id {
      var rest := items[1..];
      BlockedIffEditFirst(rest, item);
      if Blocked(items, item) {
        var k :| 0 <= k < |rest| && rest[k].action == EditAction
                 && forall j :: 0 <= j < k ==> rest[j].id != item.id;
        assert items[k + 1] == rest[k];
        assert forall j :: 1 <= j < k + 1 ==> items[j] == rest[j - 1];
      }
      if exists k :: 0 <= k < |items| && items[k].action == EditAction
                     && forall j :: 0 <= j < k ==> items[j].id != item.id {
        var k :| 0 <= k < |items| && items[k].action == EditAction
                 && forall j :: 0 <= j < k ==> items[j].id != item.id;
        assert k > 0;
        assert rest[k - 1] == items[k];
        assert forall j :: 0 <= j < k - 1 ==> rest[j] == items[j + 1];
      }
    } else if items != [] && items[0].action == EditAction {
      assert items[0].action == EditAction;
    } else if items != [] {
      assert forall k :: 0 <= k < |items| && items[k].action == EditAction ==> k > 0 && items[0].id == item.id;
    }
  }

  /** `Queue`: the pending requests, oldest first. */
  class Queue {
    var items: seq<Item>

    constructor ()
      ensures items == []
    {
      items := [];
    }

    /** `IsBlocked`: whether a diagnostic request must wait for an edit queued before it. */
    method IsBlocked(item: Item) returns (b: bool)
      ensures b == Blocked(items, item)
      ensures item.action != DiagnosticAction ==> !b
      ensures items == [] ==> !b
    {
      if item.action != DiagnosticAction {
        return false;
      }
      var i := 0;
      while i < |items|
        invariant 0 <= i <= |items|
        invariant Blocked(items, item) == Blocked(items[i..], item)
      {
        assert items[i..][1..] == items[i + 1..];
        if items[i].action == EditAction {
          return true;
        } else if items[i].id == item.id {
          return false;
        }
        i := i + 1;
      }
      return false;
    }

    /** `AddToQueue`: the item goes to the back. */
    method AddToQueue(item: Item)
      modifies this
      ensures items == old(items) + [item]
    {
      items := items + [item];
    }

    /** `RemoveFromQueue`: the first item with the id leaves the queue; nothing changes when
        no item has it. */
    method RemoveFromQueue(item: Item)
      modifies this
      ensures items == Seqs.RemoveFirstKey(old(items), ItemId, item.id)
    {
      var i := 0;
      while i < |items|
        invariant 0 <= i <= |items| && items == old(items)
        invariant forall j :: 0 <= j < i ==> items[j].id != item.id
      {
        if items[i].id == item.id {
          items := items[..i] + items[i + 1..];
          return;
        }
        i := i + 1;
      }
    }
  }
}
