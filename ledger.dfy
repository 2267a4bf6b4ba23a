/** The warehouse ledger payload of the chaincode and the records its
    ingestion loop derives from it.

    A decoded payload is a sequence of shipments (`ledger` in the chaincode);
    each shipment carries vendor metadata, its delivered line items and its
    recorded defects. The ingestion loop walks every (shipment, item, defect)
    triple in order and builds one `Warehouse` record per triple; `Records`
    is that sequence of records, in the order the loop builds them. */
module Ledger {

  /** Go's `int` on the 64-bit platforms chaincode runs on. */
  type Int64 = x: int | -0x8000_0000_0000_0000 <= x < 0x8000_0000_0000_0000

  /** Two's-complement wrap-around of an unbounded integer into `Int64`. */
  function Wrap64(x: int): (r: Int64)
    ensures (r - x) % 0x1_0000_0000_0000_0000 == 0
    ensures -0x8000_0000_0000_0000 <= x < 0x8000_0000_0000_0000 ==> r == x
  {
    (x + 0x8000_0000_0000_0000) % 0x1_0000_0000_0000_0000 - 0x8000_0000_0000_0000
  }

  /** The anonymous `{Name, Desc, Qty}` struct used for both items and defects. */
  datatype LineItem = LineItem(name: string, desc: string, qty: Int64)

  /** One shipment of the decoded payload (the Go type `ledger`). */
  datatype Shipment = Shipment(
    vendor: string,
    time: string,
    geolocation: string,
    vehicleNo: string,
    vehicleType: string,
    items: seq<LineItem>,
    defects: seq<LineItem>)

  /** The flattened record the loop builds for one (shipment, item, defect) triple. */
  datatype Warehouse = Warehouse(
    vendor: string,
    time: string,
    geolocation: string,
    vehicleNo: string,
    vehicleType: string,
    name: string,
    desc: string,
    scannedItem: Int64,
    defect: Int64)

  /** The record built for shipment `s`, one of its items and one of its
      defects: metadata from the shipment, name and description from the
      item, the item quantity less the defect quantity (wrapping like Go's
      `int`) and the defect quantity. */
  function Combine(s: Shipment, item: LineItem, defect: LineItem): (w: Warehouse)
    ensures w.vendor == s.vendor && w.time == s.time && w.geolocation == s.geolocation
    ensures w.vehicleNo == s.vehicleNo && w.vehicleType == s.vehicleType
    ensures w.name == item.name && w.desc == item.desc && w.defect == defect.qty
    ensures (w.scannedItem + w.defect - item.qty) % 0x1_0000_0000_0000_0000 == 0
  {
    Warehouse(s.vendor, s.time, s.geolocation, s.vehicleNo, s.vehicleType,
              item.name, item.desc, Wrap64(item.qty - defect.qty), defect.qty)
  }

  /** The records of the innermost loop: `item` against each of `defects`, in order. */
  function DefectRecords(s: Shipment, item: LineItem, defects: seq<LineItem>): (r: seq<Warehouse>)
    ensures |r| == |defects|
    ensures forall j :: 0 <= j < |defects| ==> r[j] == Combine(s, item, defects[j])
  {
    if defects == [] then []
    else DefectRecords(s, item, defects[..|defects| - 1]) + [Combine(s, item, defects[|defects| - 1])]
  }

  /** The records of the middle loop: each of `items`, in order, against all
      defects of the shipment. */
  function ItemRecords(s: Shipment, items: seq<LineItem>): (r: seq<Warehouse>)
    ensures |r| == |items| * |s.defects|
  {
    if items == [] then []
    else ItemRecords(s, items[..|items| - 1]) + DefectRecords(s, items[|items| - 1], s.defects)
  }

  /** Number of (item, defect) pairs over all shipments. */
  function Pairs(shipments: seq<Shipment>): nat
  {
    if shipments == [] then 0
    else Pairs(shipments[..|shipments| - 1])
         + |shipments[|shipments| - 1].items| * |shipments[|shipments| - 1].defects|
  }

  /** Every record the triple loop builds, in the order it builds them. */
  function Records(shipments: seq<Shipment>): (r: seq<Warehouse>)
    ensures |r| == Pairs(shipments)
  {
    if shipments == [] then []
    else
      var last := shipments[|shipments| - 1];
      Records(shipments[..|shipments| - 1]) + ItemRecords(last, last.items)
  }

  /** A shipment that enters the innermost loop body at least once. */
  predicate Complete(s: Shipment)
  {
    |s.items| > 0 && |s.defects| > 0
  }

  /** The record built from a complete shipment's last item and last defect. */
  function Final(s: Shipment): Warehouse
    requires Complete(s)
  {
    Combine(s, s.items[|s.items| - 1], s.defects[|s.defects| - 1])
  }

  /** `k` is the index of the last complete shipment. */
  predicate LastComplete(shipments: seq<Shipment>, k: int)
  {
    0 <= k < |shipments| && Complete(shipments[k]) &&
    forall m :: k < m < |shipments| ==> !Complete(shipments[m])
  }

  /** The two-slot `str` buffer after the loop has built `records`: untouched
      (`["", ""]`) when nothing was built, otherwise the key and the
      serialization of the last record built. */
  function Slot(key: string, records: seq<Warehouse>, serialize: Warehouse -> string): (str: seq<string>)
    ensures |str| == 2
  {
    if records == [] then ["", ""] else [key, serialize(records[|records| - 1])]
  }

  /** The `str` buffer the ingestion loop leaves for `key` and `shipments`. */
  function Transformed(key: string, shipments: seq<Shipment>, serialize: Warehouse -> string): seq<string>
  {
    Slot(key, Records(shipments), serialize)
  }

  /** One more pass of the outer loop appends that shipment's records. */
  lemma RecordsStep(shipments: seq<Shipment>, l: nat)
    requires l < |shipments|
    ensures Records(shipments[..l + 1]) ==
            Records(shipments[..l]) + ItemRecords(shipments[l], shipments[l].items)
  {
    assert shipments[..l + 1][..l] == shipments[..l];
  }

  /** Multiplying by `d` keeps order: the `(i + 1) * d <= n * d` step `ItemRecordsAt` needs. */
  lemma MulMonotone(a: nat, b: nat, d: nat)
    requires a <= b
    ensures a * d <= b * d
  {}

  /** Record `i * |defects| + j` of a shipment is item `i` against defect `j`:
      the middle loop lays out one block of `|defects|` records per item, in
      item order, each block in defect order. */
  lemma {:induction false} ItemRecordsAt(s: Shipment, items: seq<LineItem>, i: nat, j: nat)
    requires i < |items| && j < |s.defects|
    ensures i * |s.defects| + j < |items| * |s.defects|
    ensures ItemRecords(s, items)[i * |s.defects| + j] == Combine(s, items[i], s.defects[j])
  {
    var n, d := |items| - 1, |s.defects|;
    var prefix := ItemRecords(s, items[..n]);
    assert ItemRecords(s, items) == prefix + DefectRecords(s, items[n], s.defects);
    assert |items| * d == n * d + d;
    if i < n {
      MulMonotone(i + 1, n, d);
      assert i * d + j < n * d;
      ItemRecordsAt(s, items[..n], i, j);
    } else {
      assert i * d + j - |prefix| == j;
    }
  }

  /** The records of shipment `l` sit at offsets `Pairs(shipments[..l])` up
      to `Pairs(shipments[..l + 1])` of the whole loop's records: shipments
      come in payload order, each after all records of the ones before it.
      With `ItemRecordsAt`, record `Pairs(shipments[..l]) + i * |defects| + j`
      is item `i` of shipment `l` against its defect `j`. */
  lemma RecordsBlock(shipments: seq<Shipment>, l: nat)
    requires l < |shipments|
    ensures Pairs(shipments[..l]) <= Pairs(shipments[..l + 1]) <= |Records(shipments)|
    ensures Records(shipments)[Pairs(shipments[..l])..Pairs(shipments[..l + 1])]
         == ItemRecords(shipments[l], shipments[l].items)
  {
    var before, block, after :=
      Records(shipments[..l]), ItemRecords(shipments[l], shipments[l].items), Records(shipments[l + 1..]);
    RecordsSplit(shipments, l);
    RecordsStep(shipments, l);
    assert (before + block + after)[|before|..|before| + |block|] == block;
  }

  /** The records of a payload are those of the shipments before `l`, then
      those of shipment `l`, then those of the shipments after it. */
  lemma RecordsSplit(shipments: seq<Shipment>, l: nat)
    requires l < |shipments|
    ensures Records(shipments) ==
      Records(shipments[..l]) + ItemRecords(shipments[l], shipments[l].items) + Records(shipments[l + 1..])
  {
    assert shipments == shipments[..l + 1] + shipments[l + 1..];
    RecordsAppend(shipments[..l + 1], shipments[l + 1..]);
    RecordsStep(shipments, l);
  }

  /** A shipment's records are empty exactly when it is not complete, and
      otherwise end with the record of its last item and last defect. */
  lemma ShipmentRecordsLast(s: Shipment)
    ensures ItemRecords(s, s.items) == [] <==> !Complete(s)
    ensures Complete(s) ==> ItemRecords(s, s.items)[|ItemRecords(s, s.items)| - 1] == Final(s)
  {
    if Complete(s) {
      var items := s.items;
      var dr := DefectRecords(s, items[|items| - 1], s.defects);
      assert ItemRecords(s, items) == ItemRecords(s, items[..|items| - 1]) + dr;
      assert dr[|dr| - 1] == Final(s);
    }
  }

  /** The records of a concatenation are the concatenation of the records:
      each shipment contributes independently of the others. */
  lemma {:induction false} RecordsAppend(a: seq<Shipment>, b: seq<Shipment>)
    ensures Records(a + b) == Records(a) + Records(b)
  {
    if b == [] {
      assert a + b == a;
    } else {
      var n := |b| - 1;
      assert (a + b)[..|a + b| - 1] == a + b[..n];
      assert (a + b)[|a + b| - 1] == b[n];
      RecordsAppend(a, b[..n]);
    }
  }

  /** The loop builds nothing exactly when no shipment is complete. */
  lemma {:induction false} NoRecordsIff(shipments: seq<Shipment>)
    ensures Records(shipments) == [] <==> forall k :: 0 <= k < |shipments| ==> !Complete(shipments[k])
  {
    if shipments != [] {
      var n := |shipments| - 1;
      var init, last := shipments[..n], shipments[n];
      assert Records(shipments) == Records(init) + ItemRecords(last, last.items);
      ShipmentRecordsLast(last);
      NoRecordsIff(init);
      assert forall k :: 0 <= k < n ==> init[k] == shipments[k];
    }
  }

  /** The last record the loop builds is the final record of the last
      complete shipment. */
  lemma {:induction false} LastRecordIsFinal(shipments: seq<Shipment>, k: nat)
    requires LastComplete(shipments, k)
    ensures Records(shipments) != []
    ensures Records(shipments)[|Records(shipments)| - 1] == Final(shipments[k])
  {
    var n := |shipments| - 1;
    var init, last := shipments[..n], shipments[n];
    var block := ItemRecords(last, last.items);
    assert Records(shipments) == Records(init) + block;
    ShipmentRecordsLast(last);
    if k == n {
      assert block != [] && block[|block| - 1] == Final(last);
    } else {
      assert !Complete(last);
      assert Records(shipments) == Records(init);
      assert LastComplete(init, k) by {
        assert forall m :: k < m < n ==> init[m] == shipments[m];
      }
      LastRecordIsFinal(init, k);
    }
  }

  /** Last-wins over the triple loop: the loop builds nothing exactly when no
      shipment is complete; otherwise the last record built comes from the
      last complete shipment, its last item and its last defect. */
  lemma LastRecordWins(shipments: seq<Shipment>)
    ensures Records(shipments) == [] <==> forall k :: 0 <= k < |shipments| ==> !Complete(shipments[k])
    ensures forall k | LastComplete(shipments, k) ::
      Records(shipments) != [] && Records(shipments)[|Records(shipments)| - 1] == Final(shipments[k])
  {
    NoRecordsIff(shipments);
    forall k | LastComplete(shipments, k)
      ensures Records(shipments) != [] && Records(shipments)[|Records(shipments)| - 1] == Final(shipments[k])
    {
      LastRecordIsFinal(shipments, k);
    }
  }

  /** When some shipment is complete, there is a last complete one. */
  lemma {:induction false} LastCompleteExists(shipments: seq<Shipment>, k0: nat)
    requires k0 < |shipments| && Complete(shipments[k0])
    ensures exists k :: LastComplete(shipments, k)
    decreases |shipments| - k0
  {
    if !LastComplete(shipments, k0) {
      var m :| k0 < m < |shipments| && Complete(shipments[m]);
      LastCompleteExists(shipments, m);
    }
  }

  /** One more pass of the outer loop: a complete shipment overwrites the
      buffer with its final record, any other shipment leaves it as it was. */
  lemma TransformedStep(key: string, shipments: seq<Shipment>, l: nat, serialize: Warehouse -> string)
    requires l < |shipments|
    ensures Transformed(key, shipments[..l + 1], serialize) ==
      if Complete(shipments[l]) then [key, serialize(Final(shipments[l]))]
      else Transformed(key, shipments[..l], serialize)
  {
    RecordsStep(shipments, l);
    ShipmentRecordsLast(shipments[l]);
  }

  /** A shipment without items or without defects never reaches the loop
      body, so inserting it anywhere in the payload leaves the buffer as it
      was. */
  lemma IncompleteShipmentIgnored(a: seq<Shipment>, s: Shipment, b: seq<Shipment>,
                                  key: string, serialize: Warehouse -> string)
    requires !Complete(s)
    ensures Records(a + [s] + b) == Records(a + b)
    ensures Transformed(key, a + [s] + b, serialize) == Transformed(key, a + b, serialize)
  {
    assert Records([s]) == [] by {
      assert [s][..0] == [];
      ShipmentRecordsLast(s);
    }
    calc {
      Records(a + [s] + b);
      { RecordsAppend(a + [s], b); }
      Records(a + [s]) + Records(b);
      { RecordsAppend(a, [s]); }
      Records(a) + Records(b);
      { RecordsAppend(a, b); }
      Records(a + b);
    }
  }

  /** The buffer the loop leaves, in closed form: `["", ""]` when no shipment
      is complete (in particular for an empty payload), otherwise the key and
      the serialization of the last complete shipment's last item against its
      last defect. */
  lemma TransformedClosedForm(key: string, shipments: seq<Shipment>, serialize: Warehouse -> string)
    ensures (forall k :: 0 <= k < |shipments| ==> !Complete(shipments[k])) ==>
      Transformed(key, shipments, serialize) == ["", ""]
    ensures forall k | LastComplete(shipments, k) ::
      Transformed(key, shipments, serialize) == [key, serialize(Final(shipments[k]))]
    ensures (exists k :: 0 <= k < |shipments| && Complete(shipments[k])) ==>
      exists k :: LastComplete(shipments, k)
  {
    LastRecordWins(shipments);
    if exists k :: 0 <= k < |shipments| && Complete(shipments[k]) {
      var k :| 0 <= k < |shipments| && Complete(shipments[k]);
      LastCompleteExists(shipments, k);
    }
  }

  /** One shipment with one item of quantity 10 and one defect of quantity 2:
      the buffer holds the key and the record with 8 scanned items and 2
      defects. */
  lemma OneItemOneDefect(serialize: Warehouse -> string)
    ensures Transformed("k1", [Shipment("V1", "", "", "", "", [LineItem("A", "", 10)], [LineItem("D", "", 2)])], serialize)
         == ["k1", serialize(Warehouse("V1", "", "", "", "", "A", "", 8, 2))]
  {
    var shipments := [Shipment("V1", "", "", "", "", [LineItem("A", "", 10)], [LineItem("D", "", 2)])];
    assert LastComplete(shipments, 0);
    TransformedClosedForm("k1", shipments, serialize);
  }

  /** One shipment with an item but no defects: the buffer is left empty. */
  lemma ItemsWithoutDefects(key: string, serialize: Warehouse -> string)
    ensures Transformed(key, [Shipment("V1", "", "", "", "", [LineItem("", "", 5)], [])], serialize) == ["", ""]
  {
    TransformedClosedForm(key, [Shipment("V1", "", "", "", "", [LineItem("", "", 5)], [])], serialize);
  }
}
