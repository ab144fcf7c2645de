/** The ids of a cancelled order, which is either a plain order or an OCO
    (one-cancels-the-other) order list.

    The object is filled in by the JSON reader, one property setter per field
    of the response. Two of those properties are private and exist for the
    JSON reader and writer: `orderListId` carries the list id of an OCO cancel (or the
    sentinel "-1" for a plain order) and `listClientOrderId` carries the
    list's client id. Both redirect into the public `Id` / `ClientOrderId`
    and flag the object as an OCO order.

    The properties are C# strings, so each may hold null, and the JSON reader
    hands a `null` field value to the setter as it is. A string property is
    therefore a `NullableString`, with `None` for null.
 */
module CancelledIds {
  import opened CallResults

  /** The `orderListId` Binance sends for an order that is not part of a list. */
  const NotAList: string := "-1"

  /** A C# string reference: `None` is null. */
  type NullableString = Option<string>

  /** The observable state of one object: `Id`, `ClientOrderId`, `OcoOrder`. */
  datatype CancelledId = CancelledId(id: NullableString, clientOrderId: NullableString, ocoOrder: bool)

  /** A newly constructed object: both ids start empty and `OcoOrder` holds the bool default. */
  function Fresh(): (r: CancelledId)
    ensures r.id == Some("") && r.clientOrderId == Some("")
    ensures !r.ocoOrder
  {
    CancelledId(Some(""), Some(""), false)
  }

  // ---------------------------------------------------------------------------
  // Property setters and getters

  /** The public `Id` setter, bound to the JSON field `orderId`. */
  function SetId(c: CancelledId, v: NullableString): (r: CancelledId)
    ensures r.id == v
    ensures r.clientOrderId == c.clientOrderId && r.ocoOrder == c.ocoOrder
  {
    c.(id := v)
  }

  /** The public `ClientOrderId` setter, bound by name to the JSON field `clientOrderId`. */
  function SetClientOrderId(c: CancelledId, v: NullableString): (r: CancelledId)
    ensures r.clientOrderId == v
    ensures r.id == c.id && r.ocoOrder == c.ocoOrder
  {
    c.(clientOrderId := v)
  }

  /** The public `OcoOrder` setter. It is not bound to any field of the response. */
  function SetOcoOrder(c: CancelledId, b: bool): (r: CancelledId)
    ensures r.ocoOrder == b
    ensures r.id == c.id && r.clientOrderId == c.clientOrderId
  {
    c.(ocoOrder := b)
  }

  /** The private `ListClientOrderId` setter: the list's client id becomes the
      `ClientOrderId`, and the object is an OCO order from then on. */
  function SetListClientOrderId(c: CancelledId, v: NullableString): (r: CancelledId)
    ensures r.clientOrderId == v && r.ocoOrder
    ensures r.id == c.id
  {
    c.(clientOrderId := v, ocoOrder := true)
  }

  /** The private `OrderListId` setter: the sentinel is ignored; any other list
      id, null included, becomes the `Id` and flags the object as an OCO order. */
  function SetOrderListId(c: CancelledId, v: NullableString): (r: CancelledId)
    ensures v == Some(NotAList) ==> r == c
    ensures v != Some(NotAList) ==> r.id == v && r.ocoOrder
    ensures r.clientOrderId == c.clientOrderId
  {
    if v == Some(NotAList) then c else c.(id := v, ocoOrder := true)
  }

  /** The private `ListClientOrderId` getter. It reads `Id`, not `ClientOrderId`. */
  function GetListClientOrderId(c: CancelledId): NullableString {
    c.id
  }

  /** The private `OrderListId` getter, which reads `Id`. */
  function GetOrderListId(c: CancelledId): NullableString {
    c.id
  }

  /** Both private getters answer with the current `Id`, whatever the other ids hold. */
  lemma GettersReadId(c: CancelledId, other: NullableString)
    ensures GetListClientOrderId(c) == GetOrderListId(c) == c.id
    ensures GetListClientOrderId(SetClientOrderId(c, other)) == c.id
  {
  }

  /** Writing a real list id and reading `orderListId` back returns what was written. */
  lemma OrderListIdReadsBack(c: CancelledId, v: NullableString)
    requires v != Some(NotAList)
    ensures GetOrderListId(SetOrderListId(c, v)) == v
  {
  }

  /** Writing `listClientOrderId` and reading it back returns the unchanged `Id`,
      so the value written is read back only when it happens to equal `Id`. */
  lemma ListClientOrderIdReadsId(c: CancelledId, v: NullableString)
    ensures GetListClientOrderId(SetListClientOrderId(c, v)) == c.id
    ensures GetListClientOrderId(SetListClientOrderId(c, v)) == v <==> v == c.id
  {
  }

  // ---------------------------------------------------------------------------
  // Deserialisation: the response's fields, applied one setter at a time

  /** One field of a cancel response, as dispatched to its property setter. */
  datatype Field =
    | OrderId(value: NullableString)
    | ClientOrderId(value: NullableString)
    | ListClientOrderId(value: NullableString)
    | OrderListId(value: NullableString)

  /** The setter the JSON reader calls for one field. */
  function Assign(c: CancelledId, f: Field): CancelledId {
    match f
    case OrderId(v) => SetId(c, v)
    case ClientOrderId(v) => SetClientOrderId(c, v)
    case ListClientOrderId(v) => SetListClientOrderId(c, v)
    case OrderListId(v) => SetOrderListId(c, v)
  }

  /** The fields applied in arrival order. No setter ever clears `OcoOrder`. */
  function AssignAll(c: CancelledId, fs: seq<Field>): (r: CancelledId)
    ensures c.ocoOrder ==> r.ocoOrder
    decreases |fs|
  {
    if |fs| == 0 then c else AssignAll(Assign(c, fs[0]), fs[1..])
  }

  /** The object a response with fields `fs` deserialises into. */
  function Deserialize(fs: seq<Field>): CancelledId {
    AssignAll(Fresh(), fs)
  }

  // ---------------------------------------------------------------------------
  // Reference description: which field wins each property

  /** The `Id` a field writes, if it writes one. */
  function IdWritten(f: Field): Option<NullableString> {
    match f
    case OrderId(v) => Some(v)
    case OrderListId(v) => if v == Some(NotAList) then None else Some(v)
    case _ => None
  }

  /** The `ClientOrderId` a field writes, if it writes one. */
  function ClientIdWritten(f: Field): Option<NullableString> {
    match f
    case ClientOrderId(v) => Some(v)
    case ListClientOrderId(v) => Some(v)
    case _ => None
  }

  /** Whether a field marks the object as an OCO order. */
  predicate MarksOco(f: Field) {
    f.ListClientOrderId? || (f.OrderListId? && f.value != Some(NotAList))
  }

  /** The `Id` written by the last field that writes one. */
  function LastIdWrite(fs: seq<Field>): Option<NullableString> {
    if |fs| == 0 then None
    else if IdWritten(fs[|fs| - 1]).Some? then IdWritten(fs[|fs| - 1])
    else LastIdWrite(fs[..|fs| - 1])
  }

  /** The `ClientOrderId` written by the last field that writes one. */
  function LastClientIdWrite(fs: seq<Field>): Option<NullableString> {
    if |fs| == 0 then None
    else if ClientIdWritten(fs[|fs| - 1]).Some? then ClientIdWritten(fs[|fs| - 1])
    else LastClientIdWrite(fs[..|fs| - 1])
  }

  /** Whether some field of the response marks the object as an OCO order. */
  predicate AnyMarksOco(fs: seq<Field>) {
    exists i :: 0 <= i < |fs| && MarksOco(fs[i])
  }

  /** What the object holds after the fields `fs` are applied to `c`:
      the last id written wins, and `OcoOrder` is set once any OCO field arrived. */
  function Expected(c: CancelledId, fs: seq<Field>): CancelledId {
    CancelledId(
      LastIdWrite(fs).GetOr(c.id),
      LastClientIdWrite(fs).GetOr(c.clientOrderId),
      c.ocoOrder || AnyMarksOco(fs))
  }

  /** The sentinel list id: a field that the setters ignore altogether. */
  predicate IsSentinel(f: Field) {
    f == OrderListId(Some(NotAList))
  }

  /** The fields with every sentinel `orderListId` removed. */
  function WithoutSentinel(fs: seq<Field>): (r: seq<Field>)
    ensures |r| <= |fs|
    ensures forall i :: 0 <= i < |r| ==> !IsSentinel(r[i])
    decreases |fs|
  {
    if |fs| == 0 then []
    else if IsSentinel(fs[0]) then WithoutSentinel(fs[1..])
    else [fs[0]] + WithoutSentinel(fs[1..])
  }

  // ---------------------------------------------------------------------------
  // Lemmas

  /** Applying one more field after a sequence is applying the longer sequence. */
  lemma {:induction false} AssignAllSnoc(c: CancelledId, fs: seq<Field>, f: Field)
    ensures AssignAll(c, fs + [f]) == Assign(AssignAll(c, fs), f)
    decreases |fs|
  {
    if |fs| == 0 {
      assert fs + [f] == [f];
    } else {
      assert (fs + [f])[1..] == fs[1..] + [f];
      AssignAllSnoc(Assign(c, fs[0]), fs[1..], f);
    }
  }

  /** Applying the fields in order leaves the object the reference description says. */
  lemma {:induction false} AssignAllMatchesExpected(c: CancelledId, fs: seq<Field>)
    ensures AssignAll(c, fs) == Expected(c, fs)
    decreases |fs|
  {
    if |fs| == 0 {
      assert !AnyMarksOco(fs);
    } else {
      var init, f := fs[..|fs| - 1], fs[|fs| - 1];
      assert fs == init + [f];
      AssignAllSnoc(c, init, f);
      AssignAllMatchesExpected(c, init);
      assert forall i :: 0 <= i < |init| ==> fs[i] == init[i];
      assert AnyMarksOco(fs) <==> AnyMarksOco(init) || MarksOco(f) by {
        if AnyMarksOco(init) {
          var i :| 0 <= i < |init| && MarksOco(init[i]);
          assert MarksOco(fs[i]);
        }
        if AnyMarksOco(fs) {
          var i :| 0 <= i < |fs| && MarksOco(fs[i]);
          if i < |init| { assert MarksOco(init[i]); }
        }
      }
    }
  }

  /** A response is read as an OCO cancel exactly when it carries a list client
      id or a list id other than the sentinel. */
  lemma DeserializedOcoIff(fs: seq<Field>)
    ensures Deserialize(fs).ocoOrder <==> AnyMarksOco(fs)
  {
    AssignAllMatchesExpected(Fresh(), fs);
  }

  /** A null `orderListId` is not the sentinel: a response carrying one is read
      as an OCO cancel, whatever else it holds. */
  lemma NullListIdReadsAsOco(fs: seq<Field>)
    requires OrderListId(None) in fs
    ensures Deserialize(fs).ocoOrder
  {
    DeserializedOcoIff(fs);
    var i :| 0 <= i < |fs| && fs[i] == OrderListId(None);
    assert MarksOco(fs[i]);
  }

  /** The sentinel list id never changes the object, wherever it arrives. */
  lemma {:induction false} SentinelIgnored(c: CancelledId, fs: seq<Field>)
    ensures AssignAll(c, fs) == AssignAll(c, WithoutSentinel(fs))
    decreases |fs|
  {
    if |fs| != 0 {
      SentinelIgnored(Assign(c, fs[0]), fs[1..]);
      if !IsSentinel(fs[0]) {
        var w := [fs[0]] + WithoutSentinel(fs[1..]);
        assert w[0] == fs[0] && w[1..] == WithoutSentinel(fs[1..]);
      }
    }
  }

  /** When every field that writes `Id` writes the same `v`, and one does, the
      reference description's `Id` is `v` regardless of the fields' order. */
  lemma {:induction false} LastIdWriteAgreed(fs: seq<Field>, v: NullableString)
    requires forall i :: 0 <= i < |fs| && IdWritten(fs[i]).Some? ==> IdWritten(fs[i]) == Some(v)
    requires exists i :: 0 <= i < |fs| && IdWritten(fs[i]).Some?
    ensures LastIdWrite(fs) == Some(v)
    decreases |fs|
  {
    var init := fs[..|fs| - 1];
    if IdWritten(fs[|fs| - 1]).None? {
      var i :| 0 <= i < |fs| && IdWritten(fs[i]).Some?;
      assert init[i] == fs[i];
      LastIdWriteAgreed(init, v);
    }
  }

  /** The `ClientOrderId` counterpart of `LastIdWriteAgreed`. */
  lemma {:induction false} LastClientIdWriteAgreed(fs: seq<Field>, v: NullableString)
    requires forall i :: 0 <= i < |fs| && ClientIdWritten(fs[i]).Some? ==> ClientIdWritten(fs[i]) == Some(v)
    requires exists i :: 0 <= i < |fs| && ClientIdWritten(fs[i]).Some?
    ensures LastClientIdWrite(fs) == Some(v)
    decreases |fs|
  {
    var init := fs[..|fs| - 1];
    if ClientIdWritten(fs[|fs| - 1]).None? {
      var i :| 0 <= i < |fs| && ClientIdWritten(fs[i]).Some?;
      assert init[i] == fs[i];
      LastClientIdWriteAgreed(init, v);
    }
  }

  /** A plain order's cancel response, its three fields in whatever order they
      arrive, yields exactly its order ids and is not an OCO order. */
  lemma PlainOrderResponse(orderId: NullableString, clientId: NullableString, fs: seq<Field>)
    requires multiset(fs) == multiset{OrderId(orderId), ClientOrderId(clientId), OrderListId(Some(NotAList))}
    ensures Deserialize(fs) == CancelledId(orderId, clientId, false)
  {
    AssignAllMatchesExpected(Fresh(), fs);
    forall i | 0 <= i < |fs|
      ensures fs[i] == OrderId(orderId) || fs[i] == ClientOrderId(clientId) || fs[i] == OrderListId(Some(NotAList))
    {
      assert fs[i] in multiset(fs);
    }
    assert OrderId(orderId) in multiset(fs);
    var j :| 0 <= j < |fs| && fs[j] == OrderId(orderId);
    LastIdWriteAgreed(fs, orderId);
    assert ClientOrderId(clientId) in multiset(fs);
    var k :| 0 <= k < |fs| && fs[k] == ClientOrderId(clientId);
    LastClientIdWriteAgreed(fs, clientId);
  }
}
