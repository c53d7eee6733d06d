/**
 * The leaderboard list adapter: a list of entries (the very list object the
 * leaderboard screen fills), the signed-in user's id, and an `isLoading` flag
 * that appends one extra "loading" row at the end of the list.
 *
 * The adapter's calls into the list widget (`notifyItemInserted`,
 * `notifyItemRemoved`, `notifyDataSetChanged`) are recorded in a log so that
 * contracts can say which notification a call sends.
 */
module LeaderboardAdapters {
  import opened Records

  /** The `List<LeaderboardItem>` the screen owns and the adapter shows: one shared object. */
  class ItemList {
    var elems: seq<LeaderboardItem>

    constructor ()
      ensures elems == []
    {
      elems := [];
    }
  }

  const VIEW_TYPE_ITEM: int := 0
  const VIEW_TYPE_LOADING: int := 1

  /** A call the adapter makes into the list widget. */
  datatype Notification = ItemInserted(position: int) | ItemRemoved(position: int) | DataSetChanged

  /** `getItemCount()` for a list of `size` entries. */
  function ItemCountOf(size: nat, loading: bool): nat {
    size + (if loading then 1 else 0)
  }

  /** `getItemViewType(position)` for a list of `size` entries. */
  function ViewTypeOf(size: nat, loading: bool, position: int): int {
    if loading && position == ItemCountOf(size, loading) - 1 then VIEW_TYPE_LOADING else VIEW_TYPE_ITEM
  }

  /**
   * While loading there is one row more than there are entries, and exactly the
   * last one is the loading row; otherwise every row is an entry row.
   */
  lemma LoadingRowIsLast(size: nat, loading: bool)
    ensures ItemCountOf(size, loading) == (if loading then size + 1 else size)
    ensures forall position :: 0 <= position < ItemCountOf(size, loading) ==>
              (ViewTypeOf(size, loading, position) == VIEW_TYPE_LOADING <==> loading && position == size)
  {
  }

  /** The position `showLoading(true)` announces: `getItemCount()` read after the flag is set. */
  function InsertedPositionAsWritten(size: nat): int {
    ItemCountOf(size, true)
  }

  /** The position of the row that `showLoading(true)` actually adds. */
  function InsertedPositionCorrected(size: nat): int {
    ItemCountOf(size, true) - 1
  }

  /** The position `showLoading(false)` announces: `getItemCount()` read after the flag is cleared. */
  function RemovedPosition(size: nat): int {
    ItemCountOf(size, false)
  }

  /**
   * As written, the inserted position is one past the last row: it is never a
   * row of the new list, and the loading row sits one place earlier.
   */
  lemma InsertedPositionAsWrittenIsPastEnd(size: nat)
    ensures InsertedPositionAsWritten(size) == ItemCountOf(size, true)
    ensures ViewTypeOf(size, true, size) == VIEW_TYPE_LOADING
    ensures InsertedPositionAsWritten(size) != size
  {
  }

  /** Corrected, the inserted position is exactly the new loading row. */
  lemma InsertedPositionCorrectedIsLoadingRow(size: nat)
    ensures 0 <= InsertedPositionCorrected(size) < ItemCountOf(size, true)
    ensures ViewTypeOf(size, true, InsertedPositionCorrected(size)) == VIEW_TYPE_LOADING
  {
  }

  /** On hide, the removed position is where the loading row was. */
  lemma RemovedPositionIsOldLoadingRow(size: nat)
    ensures ViewTypeOf(size, true, RemovedPosition(size)) == VIEW_TYPE_LOADING
    ensures RemovedPosition(size) == ItemCountOf(size, true) - 1
  {
  }

  /** What `onBindViewHolder` puts on an entry row. */
  datatype RowBinding = RowBinding(
    rank: int,
    username: string,
    points: int,
    highlighted: bool,
    profileImageUrl: Option<string>)

  class LeaderboardAdapter {
    const items: ItemList
    const currentUserId: string
    var isLoading: bool
    var notifications: seq<Notification>

    constructor (items: ItemList, currentUserId: string)
      ensures this.items == items && this.currentUserId == currentUserId
      ensures !isLoading && notifications == []
    {
      this.items := items;
      this.currentUserId := currentUserId;
      isLoading := false;
      notifications := [];
    }

    function GetItemCount(): nat
      reads this, items
    {
      ItemCountOf(|items.elems|, isLoading)
    }

    function GetItemViewType(position: int): int
      reads this, items
    {
      ViewTypeOf(|items.elems|, isLoading, position)
    }

    /** The highlight test of `onBindViewHolder`. */
    predicate IsCurrentUserRow(item: LeaderboardItem) {
      item.userId == currentUserId
    }

    /**
     * `showLoading(show)` as the source has it: nothing happens when the flag
     * already equals `show`; otherwise the flag is set and the widget is told
     * of an insertion at the new count (show) or a removal at the new count (hide).
     */
    method ShowLoadingAsWritten(show: bool)
      modifies this
      ensures isLoading == show
      ensures old(isLoading) == show ==> notifications == old(notifications)
      ensures old(isLoading) != show ==>
                notifications == old(notifications) +
                  [if show then ItemInserted(InsertedPositionAsWritten(|items.elems|))
                   else ItemRemoved(RemovedPosition(|items.elems|))]
    {
      if isLoading == show {
        return;
      }
      isLoading := show;
      if show {
        notifications := notifications + [ItemInserted(GetItemCount())];
      } else {
        notifications := notifications + [ItemRemoved(GetItemCount())];
      }
    }

    /** `showLoading(show)` announcing the inserted loading row at its own position. */
    method ShowLoading(show: bool)
      modifies this
      ensures isLoading == show
      ensures old(isLoading) == show ==> notifications == old(notifications)
      ensures old(isLoading) != show ==>
                notifications == old(notifications) +
                  [if show then ItemInserted(InsertedPositionCorrected(|items.elems|))
                   else ItemRemoved(RemovedPosition(|items.elems|))]
    {
      if isLoading == show {
        return;
      }
      isLoading := show;
      if show {
        notifications := notifications + [ItemInserted(GetItemCount() - 1)];
      } else {
        notifications := notifications + [ItemRemoved(GetItemCount())];
      }
    }

    /** `notifyDataSetChanged()`. */
    method NotifyDataSetChanged()
      modifies this
      ensures isLoading == old(isLoading)
      ensures notifications == old(notifications) + [DataSetChanged]
    {
      notifications := notifications + [DataSetChanged];
    }

    /**
     * `onBindViewHolder(holder, position)`: an entry row shows the entry at
     * `position` and is highlighted exactly when it is the signed-in user's;
     * the loading row shows nothing.
     */
    method BindRow(position: int) returns (binding: Option<RowBinding>)
      requires 0 <= position < GetItemCount()
      ensures binding.Some? <==> GetItemViewType(position) == VIEW_TYPE_ITEM
      ensures binding.Some? ==>
                && position < |items.elems|
                && binding.value.rank == items.elems[position].rank
                && binding.value.username == items.elems[position].username
                && binding.value.points == items.elems[position].points
                && (binding.value.highlighted <==> items.elems[position].userId == currentUserId)
    {
      if GetItemViewType(position) == VIEW_TYPE_LOADING {
        binding := None;
      } else {
        var item := items.elems[position];
        binding := Some(RowBinding(item.rank, item.username, item.points, IsCurrentUserRow(item),
                                   item.profileImageUrl));
      }
    }
  }
}
