/** The recorder's blacklist handlers, as updates of the event table. */
module Recording {
  import opened Comparison

  datatype Status = Active | Replaced | Delisted | Expired

  /** The rows of an event, one for each address, share its status and expiry time. */
  datatype Row = Row(status: Status, expires: Time, ips: multiset<Ip>)

  type Table = map<Id, Row>

  /** Inserting under a known id is an integrity error, which leaves the table alone. */
  function Inserted(t: Table, id: Id, row: Row): Table {
    if id in t then t else t[id := row]
  }

  function WithStatus(t: Table, id: Id, status: Status): Table {
    if id in t then t[id := t[id].(status := status)] else t
  }

  /** The handlers chosen by the type of a message. */
  function Handle(t: Table, p: Published): Table {
    match p
    case New(id, expires, ips) => Inserted(t, id, Row(Active, expires, multiset(ips)))
    case Change(id, expires, ips, replaced) =>
      Inserted(WithStatus(t, replaced, Replaced), id, Row(Active, expires, multiset(ips)))
    case Update(id, expires, ips) =>
      if id in t then t[id := t[id].(expires := expires)] else t[id := Row(Active, expires, multiset(ips))]
    case Delist(id) => WithStatus(t, id, Delisted)
    case Expire(id) => WithStatus(t, id, Expired)
  }

  function Replay(t: Table, ps: seq<Published>): Table
    decreases |ps|
  {
    if ps == [] then t else Replay(Handle(t, ps[0]), ps[1..])
  }

  lemma {:induction false} ReplayAppend(t: Table, a: seq<Published>, b: seq<Published>)
    ensures Replay(t, a + b) == Replay(Replay(t, a), b)
    decreases |a|
  {
    if a == [] {
      assert a + b == b;
    } else {
      ReplayAppend(Handle(t, a[0]), a[1..], b);
      assert (a + b)[0] == a[0] && (a + b)[1..] == a[1..] + b;
    }
  }

  /** No row ever vanishes, and the addresses of an id never change. */
  lemma {:induction false} AddressesNeverChange(t: Table, ps: seq<Published>, id: Id)
    requires id in t
    ensures id in Replay(t, ps) && Replay(t, ps)[id].ips == t[id].ips
    decreases |ps|
  {
    if ps != [] {
      AddressesNeverChange(Handle(t, ps[0]), ps[1..], id);
    }
  }

  /** The handlers as they work: what they write, whether they insert, and what they publish in turn. */
  class Recorder {
    var table: Table
    var inserting: bool
    var integrityErrorOccurred: bool
    var recorded: seq<Id>

    constructor ()
      ensures table == map[] && recorded == []
    {
      table, inserting, integrityErrorOccurred, recorded := map[], false, false, [];
    }

    method InsertNewEventDbRecords(id: Id, row: Row)
      modifies `table, `inserting, `integrityErrorOccurred
      ensures table == Inserted(old(table), id, row) && inserting
      ensures integrityErrorOccurred == (id in old(table))
    {
      inserting := true;
      integrityErrorOccurred := id in table;
      if !integrityErrorOccurred {
        table := table[id := row];
      }
    }

    method PublishAsRecorded(id: Id)
      modifies `recorded
      ensures recorded == if inserting && !integrityErrorOccurred then old(recorded) + [id] else old(recorded)
    {
      if inserting && !integrityErrorOccurred {
        recorded := recorded + [id];
      }
    }

    method UpdateStatus(id: Id, status: Status) returns (recCount: nat)
      modifies `table
      ensures table == WithStatus(old(table), id, status) && recCount == if id in old(table) then 1 else 0
    {
      recCount := 0;
      if id in table {
        table := table[id := table[id].(status := status)];
        recCount := 1;
      }
    }

    /** `input_callback()`: exactly the entries that get rows of their own are published as recorded. */
    method InputCallback(p: Published)
      modifies this
      ensures table == Handle(old(table), p)
      ensures recorded == old(recorded)
                          + if (p.New? || p.Change? || p.Update?) && p.id !in old(table) then [p.id] else []
    {
      inserting, integrityErrorOccurred := false, false;
      match p {
        case New(id, expires, ips) =>
          InsertNewEventDbRecords(id, Row(Active, expires, multiset(ips)));
          PublishAsRecorded(id);
        case Change(id, expires, ips, replaced) =>
          var _ := UpdateStatus(replaced, Replaced);
          InsertNewEventDbRecords(id, Row(Active, expires, multiset(ips)));
          PublishAsRecorded(id);
        case Update(id, expires, ips) =>
          if id in table {
            table := table[id := table[id].(expires := expires)];
          } else {
            InsertNewEventDbRecords(id, Row(Active, expires, multiset(ips)));
          }
          PublishAsRecorded(id);
        case Delist(id) =>
          var _ := UpdateStatus(id, Delisted);
        case Expire(id) =>
          var _ := UpdateStatus(id, Expired);
      }
    }
  }
}
