/** A fixed table of slots searched by id, as the segment receiver and the wire
    decoder keep their open segments and groups. */
module SlotTable {
  datatype TableSlot<T> = Empty | Open(id: nat, item: T)

  /** The table holds exactly the open entries, each in one slot. */
  ghost predicate Table<T>(slots: seq<TableSlot<T>>, open: map<nat, T>) {
    (forall i :: 0 <= i < |slots| && slots[i].Open? ==> slots[i].id in open && open[slots[i].id] == slots[i].item) &&
    (forall id :: id in open ==> exists i :: 0 <= i < |slots| && slots[i].Open? && slots[i].id == id) &&
    (forall i, j :: 0 <= i < j < |slots| && slots[i].Open? && slots[j].Open? ==> slots[i].id != slots[j].id)
  }

  lemma RemoveShrinks<T>(m: map<nat, T>, id: nat)
    requires id in m
    ensures |m - {id}| == |m| - 1
  {
    assert (m - {id}).Keys == m.Keys - {id};
    assert |(m - {id}).Keys| == |m.Keys| - 1;
  }

  predicate AllOpen<T>(slots: seq<TableSlot<T>>) {
    forall i :: 0 <= i < |slots| ==> slots[i].Open?
  }

  lemma NoSlots<T>(slots: seq<TableSlot<T>>, open: map<nat, T>)
    requires Table(slots, open) && |slots| == 0
    ensures |open| == 0 && AllOpen(slots)
  {
    assert forall id :: id !in open;
  }

  lemma DropLast<T>(slots: seq<TableSlot<T>>, open: map<nat, T>)
    requires Table(slots, open) && |slots| > 0
    ensures var rest, last := slots[..|slots| - 1], slots[|slots| - 1];
            (AllOpen(slots) <==> AllOpen(rest) && last.Open?) && (last.Open? ==> last.id in open) &&
            Table(rest, if last.Open? then open - {last.id} else open)
  {
    var n := |slots| - 1;
    var rest, last := slots[..n], slots[n];
    var m := if last.Open? then open - {last.id} else open;
    forall x | x in m ensures exists i :: 0 <= i < |rest| && rest[i].Open? && rest[i].id == x {
      var i :| 0 <= i < |slots| && slots[i].Open? && slots[i].id == x;
      assert rest[i] == slots[i];
    }
    assert forall i :: 0 <= i < n ==> rest[i] == slots[i];
  }

  /** A free slot exists exactly while fewer entries are open than slots. */
  lemma {:induction false} FullTable<T>(slots: seq<TableSlot<T>>, open: map<nat, T>)
    requires Table(slots, open)
    ensures |open| <= |slots|
    ensures |open| == |slots| <==> AllOpen(slots)
  {
    hide Table, AllOpen;
    if |slots| == 0 {
      NoSlots(slots, open);
    } else {
      var rest, last := slots[..|slots| - 1], slots[|slots| - 1];
      DropLast(slots, open);
      if last.Open? {
        FullTable(rest, open - {last.id});
        RemoveShrinks(open, last.id);
      } else {
        FullTable(rest, open);
      }
    }
  }

  lemma FillTable<T>(slots: seq<TableSlot<T>>, open: map<nat, T>, i: nat, id: nat, item: T)
    requires Table(slots, open) && i < |slots|
    requires (slots[i].Empty? && id !in open) || (slots[i].Open? && slots[i].id == id)
    ensures Table(slots[i := Open(id, item)], open[id := item])
  {
    var s, m := slots[i := Open(id, item)], open[id := item];
    forall x | x in m ensures exists k :: 0 <= k < |s| && s[k].Open? && s[k].id == x {
      if x == id {
        assert s[i].id == x;
      } else {
        var k :| 0 <= k < |slots| && slots[k].Open? && slots[k].id == x;
        assert s[k] == slots[k];
      }
    }
  }

  lemma EmptySlot<T>(slots: seq<TableSlot<T>>, open: map<nat, T>, i: nat)
    requires Table(slots, open) && i < |slots| && slots[i].Open?
    ensures Table(slots[i := Empty], open - {slots[i].id})
  {
    var s, m := slots[i := Empty], open - {slots[i].id};
    forall x | x in m ensures exists k :: 0 <= k < |s| && s[k].Open? && s[k].id == x {
      var k :| 0 <= k < |slots| && slots[k].Open? && slots[k].id == x;
      assert s[k] == slots[k];
    }
  }
}
