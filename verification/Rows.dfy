/** The table rows made of parsed points, and the batch that inserts those of one packet. */
module Rows {
  import opened Bytes
  import opened Wire
  import opened Elements
  import opened Parser
  import opened Encoder

  datatype Row = Row(
    imei: seq<uint8>, timestamp: uint64, priority: uint8, longitude: real, latitude: real, altitude: int16,
    angle: int16, satellites: uint8, speed: int16, eventId: uint16, elements: map<string, real>)

  /** The map the element loop builds: later elements overwrite earlier ones of the same name. */
  function ElementMap(es: seq<IoElement>): map<string, real> {
    if es == [] then map[]
    else
      var last := es[|es| - 1];
      ElementMap(es[..|es| - 1])[last.name := last.value]
  }

  function ToUint8(n: int): uint8 {
    n % 0x100
  }

  function RowOf(p: Point): Row {
    Row(p.imei, p.timestamp, p.priority, p.gps.longitude, p.gps.latitude, ToInt16(p.gps.altitude),
        ToInt16(p.gps.angle), ToUint8(p.gps.satellites), ToInt16(p.gps.speed), p.eventId, ElementMap(p.elements))
  }

  function RowsOf(ps: seq<Point>): (rows: seq<Row>)
    ensures |rows| == |ps| && forall i | 0 <= i < |ps| :: rows[i] == RowOf(ps[i])
  {
    seq(|ps|, i requires 0 <= i < |ps| => RowOf(ps[i]))
  }

  /** The table, and what the database does with a batch: it may refuse to prepare, append or send it. */
  class Table {
    var rows: seq<Row>

    constructor ()
      ensures rows == []
    {
      rows := [];
    }

    /** `appends` is the number of rows after which an append fails. A packet is stored whole or not at all. */
    method SaveAvlPoints(points: seq<Point>, prepared: bool, appends: nat, sent: bool) returns (ok: bool)
      modifies this
      ensures ok <==> prepared && |points| <= appends && sent
      ensures rows == old(rows) + if ok then RowsOf(points) else []
    {
      if !prepared {
        return false;
      }
      var batch: seq<Row> := [];
      for i := 0 to |points|
        invariant i <= appends && batch == RowsOf(points)[..i] && rows == old(rows)
      {
        var point := points[i];
        var elementMap: map<string, real> := map[];
        for j := 0 to |point.elements|
          invariant elementMap == ElementMap(point.elements[..j])
        {
          var element := point.elements[j];
          elementMap := elementMap[element.name := element.value];
          assert point.elements[..j + 1][..j] == point.elements[..j];
        }
        assert point.elements[..|point.elements|] == point.elements;
        if i == appends {
          return false;
        }
        batch := batch + [Row(point.imei, point.timestamp, point.priority, point.gps.longitude, point.gps.latitude,
                              ToInt16(point.gps.altitude), ToInt16(point.gps.angle), ToUint8(point.gps.satellites),
                              ToInt16(point.gps.speed), point.eventId, elementMap)];
      }
      if !sent {
        return false;
      }
      rows := rows + batch;
      ok := true;
    }
  }

  // ---------------------------------------------------------------- what the element map holds

  /** The name of element `i` is not used again after it. */
  predicate LastOfName(es: seq<IoElement>, i: nat)
    requires i < |es|
  {
    forall j | i < j < |es| :: es[j].name != es[i].name
  }

  ghost predicate Named(es: seq<IoElement>, name: string) {
    exists i: nat :: i < |es| && es[i].name == name
  }

  /** The map has the names in the list, each with the value of its last occurrence, and nothing else. */
  ghost predicate LastWins(es: seq<IoElement>, m: map<string, real>) {
    && (forall name: string :: name in m <==> Named(es, name))
    && (forall i: nat | i < |es| && LastOfName(es, i) :: es[i].name in m && m[es[i].name] == es[i].value)
  }

  lemma {:induction false} LastIndex(es: seq<IoElement>, name: string) returns (i: nat)
    requires Named(es, name)
    ensures i < |es| && es[i].name == name && LastOfName(es, i)
  {
    var n := |es| - 1;
    if es[n].name == name {
      i := n;
    } else {
      var k: nat :| k < |es| && es[k].name == name;
      assert es[..n][k].name == name;
      i := LastIndex(es[..n], name);
      assert forall j | i < j < n :: es[j] == es[..n][j];
    }
  }

  lemma {:induction false} MapNames(es: seq<IoElement>, name: string)
    ensures name in ElementMap(es) <==> Named(es, name)
  {
    if es == [] {
    } else {
      var n := |es| - 1;
      MapNames(es[..n], name);
      if name == es[n].name {
        assert name in ElementMap(es);
      } else if Named(es, name) {
        var k: nat :| k < |es| && es[k].name == name;
        assert es[..n][k].name == name;
      }
    }
  }

  lemma {:induction false} MapValue(es: seq<IoElement>, i: nat)
    requires i < |es| && LastOfName(es, i)
    ensures es[i].name in ElementMap(es) && ElementMap(es)[es[i].name] == es[i].value
    decreases |es|
  {
    var n := |es| - 1;
    if i < n {
      assert es[n].name != es[i].name;
      assert forall j | i < j < n :: es[..n][j] == es[j];
      MapValue(es[..n], i);
    }
  }

  lemma MapLastWins(es: seq<IoElement>)
    ensures LastWins(es, ElementMap(es))
  {
    hide ElementMap, LastOfName, Named;
    forall name: string ensures name in ElementMap(es) <==> Named(es, name) {
      MapNames(es, name);
    }
    forall i: nat | i < |es| && LastOfName(es, i)
      ensures es[i].name in ElementMap(es) && ElementMap(es)[es[i].name] == es[i].value
    {
      MapValue(es, i);
    }
  }

  /** The stored map is the one map in which the last occurrence of every name wins. */
  lemma StoredElements(es: seq<IoElement>, m: map<string, real>)
    ensures m == ElementMap(es) <==> LastWins(es, m)
  {
    hide ElementMap, LastOfName, Named;
    MapLastWins(es);
    var s := ElementMap(es);
    if LastWins(es, m) {
      assert m.Keys == s.Keys;
      forall name | name in m ensures m[name] == s[name] {
        var i := LastIndex(es, name);
      }
    }
  }

  /** Pairwise different ids. */
  predicate DistinctIds(vals: seq<IOElementVal>) {
    forall i, j | 0 <= i < j < |vals| :: vals[i].id != vals[j].id
  }

  /** A point sent with different ids is stored with exactly its values, by the ids in decimal. */
  lemma StoredValues(vals: seq<IOElementVal>)
    requires All32(vals) && DistinctIds(vals)
    ensures var m := ElementMap(ReceivedElements(vals));
            (forall name :: name in m <==> exists i :: 0 <= i < |vals| && name == Itoa(vals[i].id))
            && (forall i | 0 <= i < |vals| :: m[Itoa(vals[i].id)] == vals[i].value.n32 as real)
  {
    hide Itoa, ReceivedElements, ElementMap;
    var es := ReceivedElements(vals);
    ValuesReceived(vals);
    MapLastWins(es);
    forall i: nat | i < |vals| ensures LastOfName(es, i) && Itoa(vals[i].id) == es[i].name {
      forall j | i < j < |es| ensures es[j].name != es[i].name {
        ItoaInjective(vals[i].id, vals[j].id);
      }
    }
    forall name: string
      ensures name in ElementMap(es) <==> exists i :: 0 <= i < |vals| && name == Itoa(vals[i].id)
    {
      assert name in ElementMap(es) <==> Named(es, name);
      if name in ElementMap(es) {
        var i: nat :| i < |es| && es[i].name == name;
        assert name == Itoa(vals[i].id);
      }
      if i :| 0 <= i < |vals| && name == Itoa(vals[i].id) {
        assert es[i].name == name;
      }
    }
  }

  /** The element column of every stored point: its names, each with its last value. */
  lemma StoredColumn(p: Point)
    ensures LastWins(p.elements, RowOf(p).elements)
  {
    hide ElementMap, LastWins;
    MapLastWins(p.elements);
  }

  /** The element column of a sent point with different 32-bit values: exactly its values, by the ids in decimal. */
  ghost predicate StoresValues(m: map<string, real>, vals: seq<IOElementVal>) {
    && (forall name :: name in m <==> exists i :: 0 <= i < |vals| && name == Itoa(vals[i].id))
    && (forall i | 0 <= i < |vals| && vals[i].value.N32? ::
          Itoa(vals[i].id) in m && m[Itoa(vals[i].id)] == vals[i].value.n32 as real)
  }

  /**
   What is stored for a sent point: everything as sent but angles and speeds from 32768 on, and coordinates; the
   elements as their names with their last values, so with different ids exactly the values sent.
   */
  lemma StoredPoint(p: AvlData, imei: seq<uint8>)
    ensures var row := RowOf(Received(p, imei));
            row.imei == imei && row.timestamp == p.timestamps && row.priority == p.priority
            && row.altitude == p.altitude && row.satellites == p.satellites && row.eventId == p.eventId
            && (row.angle == p.angle <==> p.angle < 0x8000) && (row.speed == p.speed <==> p.speed < 0x8000)
            && (CutToSevenDecimals(row.longitude, p.longitude)
                <==> -2147483649.0 < p.longitude * 10000000.0 < 2147483648.0)
            && (CutToSevenDecimals(row.latitude, p.latitude)
                <==> -2147483649.0 < p.latitude * 10000000.0 < 2147483648.0)
            && LastWins(ReceivedElements(p.ioElementsVal), row.elements)
            && (All32(p.ioElementsVal) && DistinctIds(p.ioElementsVal) ==> StoresValues(row.elements, p.ioElementsVal))
  {
    hide ElementMap, ReceivedElements, Coordinate, CoordinateBits, CutToSevenDecimals, LastWins, StoresValues;
    CoordinateFidelity(p.longitude);
    CoordinateFidelity(p.latitude);
    StoredColumn(Received(p, imei));
    if All32(p.ioElementsVal) && DistinctIds(p.ioElementsVal) {
      StoredElementsOf(p, imei);
    }
  }

  lemma StoredElementsOf(p: AvlData, imei: seq<uint8>)
    requires All32(p.ioElementsVal) && DistinctIds(p.ioElementsVal)
    ensures StoresValues(RowOf(Received(p, imei)).elements, p.ioElementsVal)
  {
    hide ElementMap, ReceivedElements, Coordinate, CoordinateBits, Itoa;
    var m := RowOf(Received(p, imei)).elements;
    StoredColumn(Received(p, imei));
    StoredElements(ReceivedElements(p.ioElementsVal), m);
    StoredValues(p.ioElementsVal);
  }
}
