/** The list logic behind the payment-option carousel of the payment sheet:
    which items are shown and in what order, how an item turns into a
    selection, which index counts as selected, and when a click updates the
    selection. The Compose rendering around it is not modelled. */
module PaymentOptions {
  import opened Wrappers
  import opened Seqs

  /** A saved payment method. Only its id takes part in the carousel logic;
      `details` stands for every other field of the record, so two payment
      methods can share an id and still differ. */
  datatype PaymentMethod = PaymentMethod(id: Option<string>, details: string)

  /** A carousel item (`PaymentOptionsAdapter.Item`). */
  datatype Item =
    | AddCard
    | GooglePay
    | Link
    | SavedPaymentMethod(paymentMethod: PaymentMethod)

  /** The current selection of the sheet (`PaymentSelection`). `New` stands
      for every selection of a payment method that is being added. */
  datatype PaymentSelection =
    | GooglePay
    | Link
    | Saved(paymentMethod: PaymentMethod)
    | New(details: string)

  /** The selection remembered from an earlier session (`SavedSelection`). */
  datatype SavedSelection =
    | GooglePay
    | Link
    | PaymentMethod(id: string)
    | None

  /** A call of `onUpdateSelection`. */
  datatype SelectionUpdate = SelectionUpdate(selection: Option<PaymentSelection>, isUserSelection: bool)

  /** `RecyclerView.NO_POSITION`. */
  const NoPosition: int := -1

  function Count(b: bool): nat
  {
    if b then 1 else 0
  }

  /** The index of the first saved-payment-method item of the carousel. */
  function SavedOffset(isGooglePayEnabled: bool, isLinkEnabled: bool): nat
  {
    1 + Count(isGooglePayEnabled) + Count(isLinkEnabled)
  }

  // ---------------------------------------------------------------------
  // Ordering of the saved payment methods
  // ---------------------------------------------------------------------

  /** The index of the payment method named by the saved selection, or -1. */
  function PrimaryIndex(paymentMethods: seq<PaymentMethod>, saved: SavedSelection): int
  {
    match saved
    case PaymentMethod(id) => IndexOfFirst(paymentMethods, (pm: PaymentMethod) => pm.id == Some(id))
    case _ => -1
  }

  /** `sortedPaymentMethods`: moves the saved default payment method, if it
      is present, to the front. */
  function SortedPaymentMethods(paymentMethods: seq<PaymentMethod>, saved: SavedSelection): (r: seq<PaymentMethod>)
    ensures |r| == |paymentMethods|
    ensures saved.PaymentMethod? && (exists i :: 0 <= i < |paymentMethods| && paymentMethods[i].id == Some(saved.id)) ==>
      r[0].id == Some(saved.id)
  {
    var k := PrimaryIndex(paymentMethods, saved);
    assert saved.PaymentMethod? && k != -1 ==>
      IsFirstIndex(paymentMethods, (pm: PaymentMethod) => pm.id == Some(saved.id), k);
    if k != -1 then
      [paymentMethods[k]] + paymentMethods[..k] + paymentMethods[k + 1..]
    else
      paymentMethods
  }

  /** Sorting neither loses nor duplicates a payment method. */
  lemma SortedIsPermutation(paymentMethods: seq<PaymentMethod>, saved: SavedSelection)
    ensures multiset(SortedPaymentMethods(paymentMethods, saved)) == multiset(paymentMethods)
  {
    var k := PrimaryIndex(paymentMethods, saved);
    if k != -1 {
      assert paymentMethods == paymentMethods[..k] + [paymentMethods[k]] + paymentMethods[k + 1..];
    }
  }

  /** When the saved selection names a payment method and `k` is the first
      position holding that id, that payment method comes first and every
      other one keeps its relative order. */
  lemma SortedMovesDefaultToFront(paymentMethods: seq<PaymentMethod>, id: string, k: int)
    requires 0 <= k < |paymentMethods| && paymentMethods[k].id == Some(id)
    requires forall i :: 0 <= i < k ==> paymentMethods[i].id != Some(id)
    ensures var r := SortedPaymentMethods(paymentMethods, SavedSelection.PaymentMethod(id));
      && r[0] == paymentMethods[k]
      && (forall i :: 0 <= i < k ==> r[i + 1] == paymentMethods[i])
      && (forall i :: k < i < |paymentMethods| ==> r[i] == paymentMethods[i])
  {
    var p := (pm: PaymentMethod) => pm.id == Some(id);
    assert p(paymentMethods[k]);
    var j := PrimaryIndex(paymentMethods, SavedSelection.PaymentMethod(id));
    assert IsFirstIndex(paymentMethods, p, j);
  }

  /** Without a matching saved selection the list is returned unchanged. */
  lemma SortedUnchangedWithoutDefault(paymentMethods: seq<PaymentMethod>, saved: SavedSelection)
    requires saved.PaymentMethod? ==> forall i :: 0 <= i < |paymentMethods| ==> paymentMethods[i].id != Some(saved.id)
    ensures SortedPaymentMethods(paymentMethods, saved) == paymentMethods
  {
    if saved.PaymentMethod? {
      var p := (pm: PaymentMethod) => pm.id == Some(saved.id);
      assert forall i :: 0 <= i < |paymentMethods| ==> !p(paymentMethods[i]);
    }
  }

  /** Sorting an already sorted list changes nothing. */
  lemma SortedIdempotent(paymentMethods: seq<PaymentMethod>, saved: SavedSelection)
    ensures var r := SortedPaymentMethods(paymentMethods, saved);
      SortedPaymentMethods(r, saved) == r
  {
    var r := SortedPaymentMethods(paymentMethods, saved);
    var k := PrimaryIndex(paymentMethods, saved);
    if k == -1 {
      assert r == paymentMethods;
    } else {
      var id := saved.id;
      var p := (pm: PaymentMethod) => pm.id == Some(id);
      assert p(r[0]);
      assert PrimaryIndex(r, saved) == 0;
      assert [r[0]] + r[..0] + r[1..] == r;
    }
  }

  // ---------------------------------------------------------------------
  // The item list
  // ---------------------------------------------------------------------

  /** One carousel item per payment method, in order. */
  function SavedItems(paymentMethods: seq<PaymentMethod>): (items: seq<Item>)
    ensures |items| == |paymentMethods|
    ensures forall i :: 0 <= i < |items| ==> items[i] == Item.SavedPaymentMethod(paymentMethods[i])
  {
    seq(|paymentMethods|, i requires 0 <= i < |paymentMethods| => Item.SavedPaymentMethod(paymentMethods[i]))
  }

  /** The items in front of the saved payment methods: add-card, then
      Google Pay and Link when they are enabled. */
  function LeadingItems(isGooglePayEnabled: bool, isLinkEnabled: bool): (items: seq<Item>)
    ensures |items| == SavedOffset(isGooglePayEnabled, isLinkEnabled)
    ensures items[0] == Item.AddCard
    ensures isGooglePayEnabled ==> items[1] == Item.GooglePay
    ensures isLinkEnabled ==> items[|items| - 1] == Item.Link
    ensures forall i :: 0 < i < |items| ==>
      (items[i] == Item.GooglePay && isGooglePayEnabled) || (items[i] == Item.Link && isLinkEnabled)
  {
    if isGooglePayEnabled && isLinkEnabled then [Item.AddCard, Item.GooglePay, Item.Link]
    else if isGooglePayEnabled then [Item.AddCard, Item.GooglePay]
    else if isLinkEnabled then [Item.AddCard, Item.Link]
    else [Item.AddCard]
  }

  /** `rememberPaymentOptions` without its memoisation: the add-card item,
      then Google Pay and Link when enabled, then the saved payment methods
      with the default one first. */
  function PaymentOptionItems(
    paymentMethods: seq<PaymentMethod>,
    isGooglePayEnabled: bool,
    isLinkEnabled: bool,
    initialSelection: SavedSelection
  ): (items: seq<Item>)
    ensures |items| == SavedOffset(isGooglePayEnabled, isLinkEnabled) + |paymentMethods|
    ensures items[0] == Item.AddCard
    ensures isGooglePayEnabled ==> items[1] == Item.GooglePay
    ensures isLinkEnabled ==> items[SavedOffset(isGooglePayEnabled, isLinkEnabled) - 1] == Item.Link
    ensures forall i :: 0 <= i < |paymentMethods| ==>
      items[SavedOffset(isGooglePayEnabled, isLinkEnabled) + i]
        == Item.SavedPaymentMethod(SortedPaymentMethods(paymentMethods, initialSelection)[i])
  {
    var lead := LeadingItems(isGooglePayEnabled, isLinkEnabled);
    var sorted := SortedPaymentMethods(paymentMethods, initialSelection);
    seq(|lead| + |sorted|, i requires 0 <= i < |lead| + |sorted| =>
      if i < |lead| then lead[i] else Item.SavedPaymentMethod(sorted[i - |lead|]))
  }

  /** The payment methods behind the saved-payment-method items, in order. */
  function PaymentMethodsOf(items: seq<Item>): seq<PaymentMethod>
  {
    if |items| == 0 then []
    else (if items[0].SavedPaymentMethod? then [items[0].paymentMethod] else []) + PaymentMethodsOf(items[1..])
  }

  lemma {:induction false} PaymentMethodsOfSavedItems(paymentMethods: seq<PaymentMethod>)
    ensures PaymentMethodsOf(SavedItems(paymentMethods)) == paymentMethods
  {
    if |paymentMethods| > 0 {
      var items := SavedItems(paymentMethods);
      assert items[1..] == SavedItems(paymentMethods[1..]);
      PaymentMethodsOfSavedItems(paymentMethods[1..]);
      assert paymentMethods == [paymentMethods[0]] + paymentMethods[1..];
    }
  }

  lemma {:induction false} PaymentMethodsOfAppend(a: seq<Item>, b: seq<Item>)
    ensures PaymentMethodsOf(a + b) == PaymentMethodsOf(a) + PaymentMethodsOf(b)
  {
    if |a| > 0 {
      assert (a + b)[1..] == a[1..] + b;
      PaymentMethodsOfAppend(a[1..], b);
    } else {
      assert a + b == b;
    }
  }

  lemma {:induction false} PaymentMethodsOfNone(items: seq<Item>)
    requires forall i :: 0 <= i < |items| ==> !items[i].SavedPaymentMethod?
    ensures PaymentMethodsOf(items) == []
  {
    if |items| > 0 {
      PaymentMethodsOfNone(items[1..]);
    }
  }

  /** Every item after the first is Google Pay (when enabled), Link (when
      enabled) or a saved payment method. */
  lemma ItemsAfterFirst(
    paymentMethods: seq<PaymentMethod>,
    isGooglePayEnabled: bool,
    isLinkEnabled: bool,
    initialSelection: SavedSelection
  )
    ensures var items := PaymentOptionItems(paymentMethods, isGooglePayEnabled, isLinkEnabled, initialSelection);
      forall i :: 0 < i < |items| ==>
        || (items[i] == Item.GooglePay && isGooglePayEnabled)
        || (items[i] == Item.Link && isLinkEnabled)
        || items[i].SavedPaymentMethod?
  {
    var lead := LeadingItems(isGooglePayEnabled, isLinkEnabled);
    var items := PaymentOptionItems(paymentMethods, isGooglePayEnabled, isLinkEnabled, initialSelection);
    forall i | 0 < i < |items|
      ensures || (items[i] == Item.GooglePay && isGooglePayEnabled)
              || (items[i] == Item.Link && isLinkEnabled)
              || items[i].SavedPaymentMethod?
    {
      if i < |lead| {
        assert items[i] == lead[i];
      }
    }
  }

  /** The item list is the leading items followed by the saved ones. */
  lemma ItemsSplit(
    paymentMethods: seq<PaymentMethod>,
    isGooglePayEnabled: bool,
    isLinkEnabled: bool,
    initialSelection: SavedSelection
  )
    ensures PaymentOptionItems(paymentMethods, isGooglePayEnabled, isLinkEnabled, initialSelection)
      == LeadingItems(isGooglePayEnabled, isLinkEnabled) + SavedItems(SortedPaymentMethods(paymentMethods, initialSelection))
  {
    var lead := LeadingItems(isGooglePayEnabled, isLinkEnabled);
    var saved := SavedItems(SortedPaymentMethods(paymentMethods, initialSelection));
    var items := PaymentOptionItems(paymentMethods, isGooglePayEnabled, isLinkEnabled, initialSelection);
    assert |items| == |lead + saved|;
    forall i | 0 <= i < |items|
      ensures items[i] == (lead + saved)[i]
    {
    }
  }

  /** What the carousel offers: add-card only in front, Google Pay iff it is
      enabled, Link iff it is enabled. */
  lemma ItemsContents(
    paymentMethods: seq<PaymentMethod>,
    isGooglePayEnabled: bool,
    isLinkEnabled: bool,
    initialSelection: SavedSelection
  )
    ensures var items := PaymentOptionItems(paymentMethods, isGooglePayEnabled, isLinkEnabled, initialSelection);
      && (forall i :: 0 < i < |items| ==> !items[i].AddCard?)
      && (Item.GooglePay in items <==> isGooglePayEnabled)
      && (Item.Link in items <==> isLinkEnabled)
  {
    var items := PaymentOptionItems(paymentMethods, isGooglePayEnabled, isLinkEnabled, initialSelection);
    ItemsAfterFirst(paymentMethods, isGooglePayEnabled, isLinkEnabled, initialSelection);
    if isGooglePayEnabled {
      assert items[1] == Item.GooglePay;
    }
    if isLinkEnabled {
      assert items[SavedOffset(isGooglePayEnabled, isLinkEnabled) - 1] == Item.Link;
    }
  }

  /** Every payment method appears among the items exactly as often as in
      the input: the carousel neither drops nor duplicates one. */
  lemma ItemsKeepPaymentMethods(
    paymentMethods: seq<PaymentMethod>,
    isGooglePayEnabled: bool,
    isLinkEnabled: bool,
    initialSelection: SavedSelection
  )
    ensures var items := PaymentOptionItems(paymentMethods, isGooglePayEnabled, isLinkEnabled, initialSelection);
      multiset(PaymentMethodsOf(items)) == multiset(paymentMethods)
  {
    var lead := LeadingItems(isGooglePayEnabled, isLinkEnabled);
    var sorted := SortedPaymentMethods(paymentMethods, initialSelection);
    var saved := SavedItems(sorted);
    ItemsSplit(paymentMethods, isGooglePayEnabled, isLinkEnabled, initialSelection);
    PaymentMethodsOfAppend(lead, saved);
    PaymentMethodsOfSavedItems(sorted);
    PaymentMethodsOfNone(lead);
    assert PaymentMethodsOf(PaymentOptionItems(paymentMethods, isGooglePayEnabled, isLinkEnabled, initialSelection)) == sorted;
    SortedIsPermutation(paymentMethods, initialSelection);
  }

  // ---------------------------------------------------------------------
  // Items and selections
  // ---------------------------------------------------------------------

  /** Whether `item` is the carousel item for `selection`
      (the predicate of `findSelectedPosition`). */
  predicate Selects(selection: PaymentSelection, item: Item)
  {
    match selection
    case GooglePay => item.GooglePay?
    case Link => item.Link?
    case Saved(pm) => item.SavedPaymentMethod? && pm.id == item.paymentMethod.id
    case New(_) => false
  }

  /** `Item.toPaymentSelection`: the add-card item gives no selection, every
      other item gives the selection that picks it out. */
  function ToPaymentSelection(item: Item): (r: Option<PaymentSelection>)
    ensures r.None? <==> item.AddCard?
    ensures r.Some? ==> Selects(r.value, item)
    ensures item.SavedPaymentMethod? ==> r == Some(PaymentSelection.Saved(item.paymentMethod))
  {
    match item
    case AddCard => Option.None
    case GooglePay => Some(PaymentSelection.GooglePay)
    case Link => Some(PaymentSelection.Link)
    case SavedPaymentMethod(pm) => Some(PaymentSelection.Saved(pm))
  }

  /** `findSelectedPosition`: the lowest index of an item the selection
      picks out, or -1. */
  function FindSelectedPosition(items: seq<Item>, selection: PaymentSelection): (r: int)
    ensures -1 <= r < |items|
    ensures r == -1 <==> forall i :: 0 <= i < |items| ==> !Selects(selection, items[i])
    ensures r != -1 ==> Selects(selection, items[r]) && forall i :: 0 <= i < r ==> !Selects(selection, items[i])
    ensures selection.New? ==> r == -1
  {
    var p := (item: Item) => Selects(selection, item);
    var r := IndexOfFirst(items, p);
    assert r != -1 ==> IsFirstIndex(items, p, r);
    r
  }

  /** The selection of an item finds that item, or an earlier item with the
      same meaning (a payment method sharing its id). */
  lemma SelectionOfItemIsFound(items: seq<Item>, i: int)
    requires 0 <= i < |items| && !items[i].AddCard?
    ensures var r := FindSelectedPosition(items, ToPaymentSelection(items[i]).value);
      && 0 <= r <= i
      && Selects(ToPaymentSelection(items[i]).value, items[r])
      && (items[i].GooglePay? || items[i].Link? ==> items[r] == items[i])
      && (items[i].SavedPaymentMethod? ==> items[r].SavedPaymentMethod? && items[r].paymentMethod.id == items[i].paymentMethod.id)
  {
  }

  /** Whether `item` is the one the remembered selection names
      (the first predicate of `findInitialSelectedPosition`). */
  predicate MatchesSaved(saved: SavedSelection, item: Item)
  {
    match saved
    case GooglePay => item.GooglePay?
    case Link => item.Link?
    case PaymentMethod(id) => item.SavedPaymentMethod? && item.paymentMethod.id == Some(id)
    case None => false
  }

  /** `findInitialSelectedPosition`: the remembered item if present, else the
      first Google Pay, Link or saved-payment-method item, in that order of
      preference; `NoPosition` when the list holds only add-card items. */
  function FindInitialSelectedPosition(items: seq<Item>, saved: SavedSelection): (r: int)
    ensures r == NoPosition <==> forall i :: 0 <= i < |items| ==> items[i].AddCard?
    ensures r != NoPosition ==> 0 <= r < |items| && !items[r].AddCard?
    ensures (exists i :: 0 <= i < |items| && MatchesSaved(saved, items[i])) ==>
      MatchesSaved(saved, items[r]) && forall i :: 0 <= i < r ==> !MatchesSaved(saved, items[i])
    ensures ((forall i :: 0 <= i < |items| ==> !MatchesSaved(saved, items[i]))
      && (exists i :: 0 <= i < |items| && items[i].GooglePay?)) ==>
      items[r].GooglePay? && forall i :: 0 <= i < r ==> !items[i].GooglePay?
    ensures ((forall i :: 0 <= i < |items| ==> !MatchesSaved(saved, items[i]) && !items[i].GooglePay?)
      && (exists i :: 0 <= i < |items| && items[i].Link?)) ==>
      items[r].Link? && forall i :: 0 <= i < r ==> !items[i].Link?
    ensures (forall i :: 0 <= i < |items| ==> !MatchesSaved(saved, items[i]) && !items[i].GooglePay? && !items[i].Link?) ==>
      r == NoPosition || (items[r].SavedPaymentMethod? && forall i :: 0 <= i < r ==> !items[i].SavedPaymentMethod?)
  {
    var bySaved := (item: Item) => MatchesSaved(saved, item);
    var byGooglePay := (item: Item) => item.GooglePay?;
    var byLink := (item: Item) => item.Link?;
    var byPaymentMethod := (item: Item) => item.SavedPaymentMethod?;
    var s := IndexOfFirst(items, bySaved);
    var g := IndexOfFirst(items, byGooglePay);
    var l := IndexOfFirst(items, byLink);
    var m := IndexOfFirst(items, byPaymentMethod);
    assert s != -1 ==> IsFirstIndex(items, bySaved, s);
    assert g != -1 ==> IsFirstIndex(items, byGooglePay, g);
    assert l != -1 ==> IsFirstIndex(items, byLink, l);
    assert m != -1 ==> IsFirstIndex(items, byPaymentMethod, m);
    assert s != -1 ==> !items[s].AddCard?;
    if s != -1 then s
    else if g != -1 then g
    else if l != -1 then l
    else if m != -1 then m
    else NoPosition
  }

  /** The selected index of the carousel (lines 84-85 of the source): a
      current selection is looked up with no fallback; only when there is
      no current selection does the remembered one decide. */
  function SelectedItemIndex(items: seq<Item>, selection: Option<PaymentSelection>, initialSelection: SavedSelection): (r: int)
    ensures -1 <= r < |items|
    ensures selection.Some? ==> (r == -1 <==> forall i :: 0 <= i < |items| ==> !Selects(selection.value, items[i]))
    ensures selection.Some? && r != -1 ==>
      Selects(selection.value, items[r]) && forall i :: 0 <= i < r ==> !Selects(selection.value, items[i])
    ensures selection.None? ==> (r == -1 <==> forall i :: 0 <= i < |items| ==> items[i].AddCard?)
    ensures selection.None? && r != -1 ==> !items[r].AddCard?
    ensures selection.None? ==> r == FindInitialSelectedPosition(items, initialSelection)
  {
    match selection
    case Some(s) => FindSelectedPosition(items, s)
    case None => FindInitialSelectedPosition(items, initialSelection)
  }

  /** A current selection that is not in the list selects nothing, even when
      the remembered selection or a Google Pay item would have been found. */
  lemma CurrentSelectionHasNoFallback(items: seq<Item>, selection: PaymentSelection, initialSelection: SavedSelection)
    requires forall i :: 0 <= i < |items| ==> !Selects(selection, items[i])
    ensures SelectedItemIndex(items, Some(selection), initialSelection) == -1
    ensures (exists i :: 0 <= i < |items| && !items[i].AddCard?) ==>
      FindInitialSelectedPosition(items, initialSelection) != -1
  {
  }

  /** With no current selection, the remembered default payment method is
      selected: it sits right after add-card, Google Pay and Link. */
  lemma DefaultPaymentMethodIsInitiallySelected(
    paymentMethods: seq<PaymentMethod>,
    isGooglePayEnabled: bool,
    isLinkEnabled: bool,
    id: string,
    k: int
  )
    requires 0 <= k < |paymentMethods| && paymentMethods[k].id == Some(id)
    requires forall i :: 0 <= i < k ==> paymentMethods[i].id != Some(id)
    ensures var saved := SavedSelection.PaymentMethod(id);
      var items := PaymentOptionItems(paymentMethods, isGooglePayEnabled, isLinkEnabled, saved);
      var r := SelectedItemIndex(items, Option.None, saved);
      r == SavedOffset(isGooglePayEnabled, isLinkEnabled) && items[r] == Item.SavedPaymentMethod(paymentMethods[k])
  {
    var saved := SavedSelection.PaymentMethod(id);
    var items := PaymentOptionItems(paymentMethods, isGooglePayEnabled, isLinkEnabled, saved);
    var off := SavedOffset(isGooglePayEnabled, isLinkEnabled);
    var lead := LeadingItems(isGooglePayEnabled, isLinkEnabled);
    SortedMovesDefaultToFront(paymentMethods, id, k);
    assert items[off] == Item.SavedPaymentMethod(paymentMethods[k]);
    assert MatchesSaved(saved, items[off]);
    assert forall i :: 0 <= i < off ==> items[i] == lead[i];
    var r := FindInitialSelectedPosition(items, saved);
    assert MatchesSaved(saved, items[r]);
    assert r == off;
  }

  // ---------------------------------------------------------------------
  // Clicks and the initial notification
  // ---------------------------------------------------------------------

  /** `handleSelection`: a click updates the selection only when the sheet is
      not being edited and the clicked item is not the selected one (by its
      first position in the list), unless re-clicking the selected item is
      allowed. */
  function HandleSelection(
    items: seq<Item>,
    selectedItemIndex: int,
    isEditing: bool,
    canClickSelectedItem: bool,
    item: Item
  ): (r: Option<SelectionUpdate>)
    ensures var isAlreadySelected :=
      if selectedItemIndex == -1 then item !in items
      else (0 <= selectedItemIndex < |items| && items[selectedItemIndex] == item
            && forall j :: 0 <= j < selectedItemIndex ==> items[j] != item);
      r.Some? <==> !isEditing && (!isAlreadySelected || canClickSelectedItem)
    ensures r.Some? ==> r.value.isUserSelection && r.value.selection == ToPaymentSelection(item)
  {
    var p := (x: Item) => x == item;
    var index := IndexOfFirst(items, p);
    assert index != -1 ==> IsFirstIndex(items, p, index);
    assert item in items <==> index != -1;
    var isAlreadySelected := index == selectedItemIndex;
    var canSelectItem := !isAlreadySelected || canClickSelectedItem;
    if !isEditing && canSelectItem then Some(SelectionUpdate(ToPaymentSelection(item), true)) else Option.None
  }

  /** Once items are loaded the view model is told which item is selected,
      as a selection that was not made by the user. */
  function InitialSelectionUpdate(items: seq<Item>, selectedItemIndex: int): (r: Option<SelectionUpdate>)
    ensures r.Some? <==> 0 <= selectedItemIndex < |items|
    ensures r.Some? ==>
      && !r.value.isUserSelection
      && (r.value.selection.None? <==> items[selectedItemIndex].AddCard?)
      && (r.value.selection.Some? ==> Selects(r.value.selection.value, items[selectedItemIndex]))
      && r.value.selection == ToPaymentSelection(items[selectedItemIndex])
  {
    if |items| > 0 && 0 <= selectedItemIndex < |items| then
      Some(SelectionUpdate(ToPaymentSelection(items[selectedItemIndex]), false))
    else
      Option.None
  }

  /** The initial notification does not move the highlight: once the view
      model holds the selection it was sent, the selected index it leads to
      is the one that was notified. */
  lemma InitialSelectionIsStable(items: seq<Item>, initialSelection: SavedSelection)
    ensures var index := SelectedItemIndex(items, Option.None, initialSelection);
      var update := InitialSelectionUpdate(items, index);
      && (update.Some? <==> exists i :: 0 <= i < |items| && !items[i].AddCard?)
      && (update.Some? ==>
            && update.value.selection.Some?
            && SelectedItemIndex(items, update.value.selection, initialSelection) == index)
  {
    var index := SelectedItemIndex(items, Option.None, initialSelection);
    if index != -1 {
      SelectionOfItemIsFound(items, index);
    }
  }
}
