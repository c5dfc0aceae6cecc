/**
 * The alarm store (the Room DAO over the `alarms` table).
 *
 * The table is a map from id to row. Inserting a row whose id is 0 lets the
 * store assign the id (Room binds `nullif(?, 0)`), and the table's
 * AUTOINCREMENT key makes that id one more than the largest id the table has
 * ever held, kept here as `nextId`. A plain `@Insert` aborts on an id that is
 * already taken; `@Update` and `@Delete` find their row by primary key only.
 */
module AlarmStore {
  import opened Common
  import opened AlarmData

  /** `list` holds every row of `rows` exactly once, in strictly descending id order. */
  ghost predicate ListedDescending(list: seq<Alarm>, rows: map<int, Alarm>) {
    && (forall i, j :: 0 <= i < j < |list| ==> list[i].id > list[j].id)
    && (forall i :: 0 <= i < |list| ==> list[i].id in rows && rows[list[i].id] == list[i])
    && (forall id :: id in rows ==> exists i :: 0 <= i < |list| && list[i].id == id)
  }

  datatype InsertOutcome = Inserted(id: int) | ConstraintFailed

  /** The largest element of a non-empty set of ids. */
  method MaxOf(s: set<int>) returns (m: int)
    requires s != {}
    ensures m in s && forall k :: k in s ==> k <= m
  {
    SomeElement(s);
    var x :| x in s;
    m := x;
    var rest := s - {x};
    while rest != {}
      invariant rest <= s && m in s
      invariant forall k :: k in s && k !in rest ==> k <= m
      decreases |rest|
    {
      SomeElement(rest);
      var y :| y in rest;
      if y > m {
        m := y;
      }
      rest := rest - {y};
    }
  }

  class AlarmDao {
    var rows: map<int, Alarm>
    /** One more than the largest id ever stored (the AUTOINCREMENT sequence). */
    var nextId: int

    ghost predicate Valid()
      reads this
    {
      && nextId >= 1
      && forall id :: id in rows ==> rows[id].id == id && id < nextId
    }

    constructor()
      ensures Valid() && rows == map[] && nextId == 1
    {
      rows := map[];
      nextId := 1;
    }

    /** `SELECT * FROM alarms ORDER BY id DESC`. */
    method GetAllAlarms() returns (list: seq<Alarm>)
      requires Valid()
      ensures ListedDescending(list, rows)
    {
      list := [];
      var remaining := rows.Keys;
      while remaining != {}
        invariant ListingSoFar(list, rows, remaining)
        decreases |remaining|
      {
        var m := MaxOf(remaining);
        ListingStep(list, rows, remaining, m);
        list := list + [rows[m]];
        remaining := remaining - {m};
      }
    }

    /** `SELECT * FROM alarms WHERE id = :id`: the row with that id, or null. */
    method GetAlarmById(id: int) returns (r: Option<Alarm>)
      requires Valid()
      ensures r.Some? <==> id in rows
      ensures r.Some? ==> r.value == rows[id] && r.value.id == id
    {
      if id in rows {
        r := Some(rows[id]);
      } else {
        r := None;
      }
    }

    /** `SELECT * FROM alarms ORDER BY id DESC LIMIT 1`. */
    method GetLatestAlarm() returns (r: Option<Alarm>)
      requires Valid()
      ensures r.None? <==> rows == map[]
      ensures r.Some? ==> r.value.id in rows && rows[r.value.id] == r.value
      ensures r.Some? ==> forall id :: id in rows ==> id <= r.value.id
    {
      if rows == map[] {
        r := None;
      } else {
        assert rows.Keys != {} by {
          assert (forall k :: k !in rows) ==> rows == map[];
        }
        var m := MaxOf(rows.Keys);
        r := Some(rows[m]);
      }
    }

    /** `@Insert`: an id of 0 is assigned; a taken id aborts with a constraint failure. */
    method InsertAlarm(a: Alarm) returns (outcome: InsertOutcome)
      requires Valid()
      modifies this
      ensures Valid()
      ensures a.id == 0 ==> outcome == Inserted(old(nextId))
      ensures a.id != 0 && a.id in old(rows) ==> outcome == ConstraintFailed
      ensures a.id != 0 && a.id !in old(rows) ==> outcome == Inserted(a.id)
      ensures outcome.Inserted? ==>
        && outcome.id !in old(rows)
        && rows == old(rows)[outcome.id := a.(id := outcome.id)]
        && nextId == if outcome.id + 1 > old(nextId) then outcome.id + 1 else old(nextId)
      ensures outcome.ConstraintFailed? ==> rows == old(rows) && nextId == old(nextId)
    {
      if a.id == 0 {
        outcome := Inserted(nextId);
        rows := rows[nextId := a.(id := nextId)];
        nextId := nextId + 1;
      } else if a.id in rows {
        outcome := ConstraintFailed;
      } else {
        outcome := Inserted(a.id);
        rows := rows[a.id := a];
        if a.id + 1 > nextId {
          nextId := a.id + 1;
        }
      }
    }

    /** `@Update`: replaces the row with a's id; nothing happens when there is none. */
    method UpdateAlarm(a: Alarm)
      requires Valid()
      modifies this
      ensures Valid()
      ensures rows == if a.id in old(rows) then old(rows)[a.id := a] else old(rows)
      ensures nextId == old(nextId)
    {
      if a.id in rows {
        rows := rows[a.id := a];
      }
    }

    /** `@Delete`: removes the row with a's id, whatever its other fields hold. */
    method DeleteAlarm(a: Alarm)
      requires Valid()
      modifies this
      ensures Valid()
      ensures rows == old(rows) - {a.id}
      ensures nextId == old(nextId)
    {
      rows := rows - {a.id};
    }
  }

  /**
   * Part of a descending listing: `list` is ordered, holds only rows that are
   * no longer `remaining`, lists every such row, and every remaining id is
   * smaller than every listed one.
   */
  ghost predicate ListingSoFar(list: seq<Alarm>, rows: map<int, Alarm>, remaining: set<int>) {
    && remaining <= rows.Keys
    && (forall i, j :: 0 <= i < j < |list| ==> list[i].id > list[j].id)
    && (forall i :: 0 <= i < |list| ==> list[i].id in rows && rows[list[i].id] == list[i] && list[i].id !in remaining)
    && (forall i, k :: 0 <= i < |list| && k in remaining ==> k < list[i].id)
    && (forall id :: id in rows && id !in remaining ==> exists i :: 0 <= i < |list| && list[i].id == id)
  }

  /** Appending the row with the largest remaining id extends a partial listing. */
  lemma ListingStep(list: seq<Alarm>, rows: map<int, Alarm>, remaining: set<int>, m: int)
    requires forall id :: id in rows ==> rows[id].id == id
    requires ListingSoFar(list, rows, remaining)
    requires m in remaining && forall k :: k in remaining ==> k <= m
    ensures ListingSoFar(list + [rows[m]], rows, remaining - {m})
  {
    var list' := list + [rows[m]];
    assert list'[|list|].id == m;
    forall id | id in rows && id !in remaining - {m}
      ensures exists i :: 0 <= i < |list'| && list'[i].id == id
    {
      if id != m {
        var i :| 0 <= i < |list| && list[i].id == id;
        assert list'[i] == list[i];
      }
    }
  }

  /**
   * A row inserted under the next assigned id goes to the top of the
   * descending listing, with the earlier listing below it unchanged.
   */
  lemma InsertedIsListedFirst(l: seq<Alarm>, rows: map<int, Alarm>, nextId: int, row: Alarm)
    requires forall id :: id in rows ==> id < nextId
    requires row.id == nextId
    requires ListedDescending(l, rows)
    ensures ListedDescending([row] + l, rows[nextId := row])
  {
    var l', rows' := [row] + l, rows[nextId := row];
    forall i, j | 0 <= i < j < |l'|
      ensures l'[i].id > l'[j].id
    {
      assert l'[j] == l[j - 1];
      if i > 0 {
        assert l'[i] == l[i - 1];
      }
    }
    forall i | 0 <= i < |l'|
      ensures l'[i].id in rows' && rows'[l'[i].id] == l'[i]
    {
      if i > 0 {
        assert l'[i] == l[i - 1];
      }
    }
    forall id | id in rows'
      ensures exists i :: 0 <= i < |l'| && l'[i].id == id
    {
      if id == nextId {
        assert l'[0].id == id;
      } else {
        var i :| 0 <= i < |l| && l[i].id == id;
        assert l'[i + 1].id == id;
      }
    }
  }

  /** The descending listing of a table is unique: ordering by id decides every position. */
  lemma {:induction false} ListingUnique(l1: seq<Alarm>, l2: seq<Alarm>, rows: map<int, Alarm>)
    requires ListedDescending(l1, rows) && ListedDescending(l2, rows)
    ensures l1 == l2
    decreases |l1|
  {
    ListingHead(l1, rows);
    ListingHead(l2, rows);
    if l1 != [] {
      assert l1[0].id == l2[0].id;
      TailListed(l1, rows);
      TailListed(l2, rows);
      ListingUnique(l1[1..], l2[1..], rows - {l1[0].id});
      assert l1 == [l1[0]] + l1[1..];
      assert l2 == [l2[0]] + l2[1..];
    }
  }

  /** Dropping the head of a listing leaves a listing of the other rows. */
  lemma TailListed(l: seq<Alarm>, rows: map<int, Alarm>)
    requires ListedDescending(l, rows) && l != []
    ensures ListedDescending(l[1..], rows - {l[0].id})
  {
    var rest := rows - {l[0].id};
    forall id | id in rest
      ensures exists i :: 0 <= i < |l[1..]| && l[1..][i].id == id
    {
      var i :| 0 <= i < |l| && l[i].id == id;
      assert i > 0;
      assert l[1..][i - 1].id == id;
    }
  }

  /** The head of a listing is the row with the largest id, and the listing is empty exactly when the table is. */
  lemma ListingHead(l: seq<Alarm>, rows: map<int, Alarm>)
    requires ListedDescending(l, rows)
    ensures l == [] <==> rows == map[]
    ensures l != [] ==> l[0].id in rows && forall id :: id in rows ==> id <= l[0].id
  {
    assert (forall k :: k !in rows) ==> rows == map[];
    if l != [] {
      assert l[0].id in rows;
      forall id | id in rows
        ensures id <= l[0].id
      {
        var i :| 0 <= i < |l| && l[i].id == id;
        if i > 0 {
          assert l[0].id > l[i].id;
        }
      }
    }
  }

  /** `getLatestAlarm()` is the head of `getAllAlarms()` (null for an empty table). */
  lemma LatestIsHeadOfAll(l: seq<Alarm>, rows: map<int, Alarm>, r: Option<Alarm>)
    requires ListedDescending(l, rows)
    requires r.None? <==> rows == map[]
    requires r.Some? ==> r.value.id in rows && rows[r.value.id] == r.value
    requires r.Some? ==> forall id :: id in rows ==> id <= r.value.id
    ensures r.None? ==> l == []
    ensures r.Some? ==> l != [] && l[0] == r.value
  {
    ListingHead(l, rows);
    if r.Some? {
      assert l[0].id <= r.value.id;
      assert r.value.id <= l[0].id;
    }
  }
}
