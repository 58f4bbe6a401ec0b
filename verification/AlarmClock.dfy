/** `Alarm`: the requests are a relative list of links, one inside each alarm. */
module AlarmClock {
  import opened RankOrder
  import opened Lists
  import opened AlarmModel

  class AlarmObject {
    var ticks: int
    var times: Times
    var link: Element?<AlarmObject>
    ghost var asked: Times
    ghost var born: int
    ghost var armed: int
    ghost var fires: nat

    constructor ()
      ensures link == null
    {
      ticks, times, asked, born, armed, fires, link := 0, 0, 0, 0, 0, 0, null;
    }

    ghost function Record(): Info
      reads this
    {
      Info(ticks, times, asked, born, armed, fires)
    }

    method Init(t: nat, x: Times, ghost now: nat)
      modifies this
      ensures Record() == Born(now, t, x)
      ensures link != null && fresh(link) && link.owner == this && link.key == t
    {
      ticks, times := t, x;
      asked, born, armed, fires := x, now, now, if t == 0 then 1 else 0;
      link := new Element<AlarmObject>(this, t);
    }
  }

  /** The alarms that the links are inside of. */
  ghost function OwnersOf(es: seq<Element<AlarmObject>>): (s: seq<AlarmObject>)
    ensures |s| == |es| && forall i :: 0 <= i < |es| ==> s[i] == es[i].owner
  {
    seq(|es|, i requires 0 <= i < |es| => es[i].owner)
  }

  lemma OwnersInsert(es: seq<Element<AlarmObject>>, p: nat, e: Element<AlarmObject>)
    requires p <= |es|
    ensures OwnersOf(InsertAt(es, p, e)) == InsertAt(OwnersOf(es), p, e.owner)
  {}

  lemma OwnersRemove(es: seq<Element<AlarmObject>>, p: nat)
    requires p < |es|
    ensures OwnersOf(RemoveAt(es, p)) == RemoveAt(OwnersOf(es), p)
  {}

  /** Searching the links for an alarm finds the place of the alarm. */
  lemma OwnersIndex(es: seq<Element<AlarmObject>>, a: AlarmObject, k: nat)
    requires k <= |es| && (k < |es| ==> es[k].owner == a)
    requires forall i :: 0 <= i < k ==> es[i].owner != a
    ensures k == IndexOf(OwnersOf(es), a)
  {
    var s := OwnersOf(es);
    assert forall i :: 0 <= i < k ==> s[i] != a;
    assert k < |s| ==> s[k] == a;
  }

  /** The class attributes of `Alarm`. */
  class AlarmQueue {
    var elapsed: nat
    const requests: List<AlarmObject>
    ghost var alarms: set<AlarmObject>

    ghost predicate Shape()
      reads this`alarms, alarms, requests, requests.elems
    {
      && requests.Valid() && requests.relative
      && (forall e :: e in requests.elems ==> e.owner in alarms && e.owner.link == e)
    }

    ghost function Owners(): (s: seq<AlarmObject>)
      reads requests
      ensures |s| == |requests.elems|
    {
      OwnersOf(requests.elems)
    }

    ghost function Records(): map<AlarmObject, Info>
      reads this`alarms, alarms
    {
      map a | a in alarms :: a.Record()
    }

    lemma OwnersAreAlarms()
      requires Shape()
      ensures forall i :: 0 <= i < |Owners()| ==> Owners()[i] in Records()
    {
      assert forall i :: 0 <= i < |requests.elems| ==> requests.elems[i] in requests.elems;
    }

    ghost function View(): Clock<AlarmObject>
      reads this, alarms, requests, requests.elems
    {
      Clock(elapsed, Owners(), requests.Ranks(), Records())
    }

    ghost predicate Valid()
      reads this, alarms, requests, requests.elems
    {
      Shape() && Inv(View())
    }

    constructor ()
      ensures Valid() && View() == Clock(0, [], [], map[]) && alarms == {}
      ensures fresh(requests)
    {
      requests := new List<AlarmObject>(true);
      elapsed, alarms := 0, {};
    }

    /** The constructor of an alarm; `now` tells whether its handler runs at once. */
    method New(a: AlarmObject, ticks: nat, times: Times) returns (now: bool)
      requires Valid() && a !in alarms
      modifies this, a, requests, requests.elems
      ensures Valid()
      ensures alarms == old(alarms) + {a}
      ensures View() == AlarmModel.New(old(View()), a, ticks, times).0
      ensures now == (AlarmModel.New(old(View()), a, ticks, times).1 == Some(a))
    {
      NewKeeps(View(), a, ticks, times);
      now := Start(a, ticks, times);
    }

    method Start(a: AlarmObject, ticks: nat, times: Times) returns (now: bool)
      requires Shape() && a !in alarms
      modifies this, a, requests, requests.elems
      ensures Shape() && alarms == old(alarms) + {a}
      ensures View() == AlarmModel.New(old(View()), a, ticks, times).0
      ensures now == (AlarmModel.New(old(View()), a, ticks, times).1 == Some(a))
    {
      hide List.Valid, List.Ranks, List.Keys;
      ghost var before := View();
      Adopt(a, ticks, times);
      assert View() == before.(alarms := before.alarms[a := Born(elapsed, ticks, times)]);
      now := ticks == 0;
      if ticks != 0 {
        Enqueue(a);
      }
    }

    method Adopt(a: AlarmObject, ticks: nat, times: Times)
      requires Shape() && a !in alarms
      modifies this`alarms, a
      ensures Shape() && Owners() == old(Owners()) && requests.Ranks() == old(requests.Ranks())
      ensures alarms == old(alarms) + {a}
      ensures Records() == old(Records())[a := Born(elapsed, ticks, times)]
      ensures a.link != null && a.link !in requests.elems && a.link.owner == a && a.link.key == ticks && fresh(a.link)
    {
      a.Init(ticks, times, elapsed);
      alarms := alarms + {a};
    }

    /** The destructor; harmless for an alarm that is not queued. */
    method Destroy(a: AlarmObject)
      requires Valid()
      modifies this, requests, requests.elems
      ensures Valid()
      ensures alarms == old(alarms) - {a}
      ensures View() == AlarmModel.Destroy(old(View()), a)
    {
      DestroyKeeps(View(), a);
      Stop(a);
    }

    method Stop(a: AlarmObject)
      requires Shape() && NoDup(Owners())
      modifies this`alarms, requests, requests.elems
      ensures Shape() && alarms == old(alarms) - {a}
      ensures View() == AlarmModel.Destroy(old(View()), a)
    {
      hide List.Valid, List.Ranks, List.Keys, AlarmQueue.Owners;
      ghost var records := Records();
      Dequeue(a);
      alarms := alarms - {a};
      assert Records() == records - {a};
    }

    method Dequeue(a: AlarmObject)
      requires Shape() && NoDup(Owners())
      modifies requests, requests.elems
      ensures Shape()
      ensures forall e :: e in requests.elems ==> e.owner != a
      ensures var k := IndexOf(old(Owners()), a);
        && Owners() == (if k < |old(Owners())| then RemoveAt(old(Owners()), k) else old(Owners()))
        && requests.Ranks() ==
           (if k < |old(Owners())| then RemoveAt(old(requests.Ranks()), k) else old(requests.Ranks()))
    {
      ghost var owners, k := Owners(), 0;
      k := Unlink(a);
      assert Owners() == Leave(owners, a);
      LeaveMembers(owners, a);
      NotQueued(a);
    }

    method Unlink(a: AlarmObject) returns (ghost k: nat)
      requires Shape()
      modifies requests, requests.elems
      ensures Shape() && k == IndexOf(old(Owners()), a)
      ensures Owners() == if k < |old(Owners())| then RemoveAt(old(Owners()), k) else old(Owners())
      ensures requests.Ranks() ==
              if k < |old(Owners())| then RemoveAt(old(requests.Ranks()), k) else old(requests.Ranks())
    {
      hide List.Valid, List.Ranks, List.Keys, NoDup, OwnersOf, IndexOf;
      ghost var es := requests.elems;
      var e;
      e, k := requests.RemoveObject(a);
      OwnersIndex(es, a, k);
      if k < |es| {
        OwnersRemove(es, k);
      }
    }

    lemma NotQueued(a: AlarmObject)
      requires a !in Owners()
      ensures forall e :: e in requests.elems ==> e.owner != a
    {
      forall e | e in requests.elems
        ensures e.owner != a
      {
        var i :| 0 <= i < |requests.elems| && requests.elems[i] == e;
        assert Owners()[i] == e.owner;
      }
    }

    /** The tick handler; the alarm returned is the one whose handler runs. */
    method Handler() returns (alarm: AlarmObject?)
      requires Valid()
      modifies this, alarms, requests, requests.elems
      ensures Valid() && alarms == old(alarms)
      ensures View() == Tick(old(View())).0
      ensures Tick(old(View())).1 == if alarm == null then None else Some(alarm)
    {
      hide Inv, Tick;
      TickKeeps(View());
      alarm := Advance();
    }

    method Advance() returns (alarm: AlarmObject?)
      requires Shape() && Applicable(View())
      modifies this`elapsed, alarms, requests, requests.elems
      ensures Shape()
      ensures View() == Tick(old(View())).0
      ensures Tick(old(View())).1 == if alarm == null then None else Some(alarm)
    {
      hide AlarmQueue.Shape, AlarmQueue.Owners, AlarmQueue.Records, List.Valid, List.Ranks, List.Keys, Fire;
      ghost var before := View();
      alarm := null;
      var idle := Begin();
      if !idle {
        Promote();
        if requests.head.key <= 0 {
          alarm := FireHead();
        }
      }
    }

    method Begin() returns (idle: bool)
      requires Shape()
      modifies this`elapsed
      ensures Shape() && idle == (Owners() == [])
      ensures View() == old(View()).(elapsed := old(elapsed) + 1)
    {
      hide List.Valid, List.Ranks, List.Keys, OwnersOf;
      elapsed := elapsed + 1;
      idle := requests.Empty();
    }

    method Promote()
      requires Shape() && Owners() != []
      modifies requests.elems`key
      ensures Shape() && Owners() == old(Owners())
      ensures requests.Ranks() == Less(old(requests.Ranks()), 1)
      ensures requests.head != null && requests.head.key == requests.Ranks()[0]
    {
      requests.PromoteHead();
      HeadlessRanks(requests.Keys());
    }

    method FireHead() returns (alarm: AlarmObject)
      requires Shape() && Owners() != []
      modifies alarms, requests, requests.elems
      ensures Shape()
      ensures old(Owners())[0] in old(Records()) && alarm == old(Owners())[0]
      ensures View() == Fire(old(View()))
    {
      hide AlarmQueue.Shape, AlarmQueue.Owners, AlarmQueue.Records, List.Valid, List.Ranks, List.Keys, HeadGone;
      alarm := Drop();
      Requeue(alarm);
    }

    method Drop() returns (alarm: AlarmObject)
      requires Shape() && Owners() != []
      modifies alarms, requests, requests.elems`prev
      ensures Shape()
      ensures old(Owners())[0] in old(Records()) && alarm == old(Owners())[0]
      ensures alarm in alarms && alarm.link != null && alarm.link in old(requests.elems)
      ensures alarm.link !in requests.elems && alarm.link.owner == alarm
      ensures alarm in Records() && Records()[alarm] == alarm.Record()
      ensures View() == HeadGone(old(View())) && requests.elems == old(requests.elems)[1..]
    {
      hide AlarmQueue.Shape, AlarmQueue.Owners, List.Valid, List.Ranks, List.Keys, Decremented;
      OwnersAreAlarms();
      alarm := DropHead();
    }

    method DropHead() returns (alarm: AlarmObject)
      requires Shape() && requests.elems != []
      modifies alarms, requests, requests.elems`prev
      ensures Shape()
      ensures alarm in alarms && alarm == old(Owners())[0]
      ensures alarm.link == old(requests.elems)[0] && alarm.link !in requests.elems && alarm.link.owner == alarm
      ensures Records() == old(Records())[alarm := Fired(old(Records())[alarm], elapsed)]
      ensures requests.elems == old(requests.elems)[1..]
      ensures Owners() == old(Owners())[1..]
      ensures requests.Ranks() == Less(old(requests.Ranks())[1..], old(requests.Ranks())[0])
    {
      hide List.Valid, List.Ranks, List.Keys;
      ghost var records := Records();
      var e := TakeHead();
      alarm := e.owner;
      Recount(alarm);
      assert Records() == records[alarm := Fired(records[alarm], elapsed)];
    }

    /** `e->rank(alarm->_ticks); _requests.insert(e)`, unless the times are used up. */
    method Requeue(a: AlarmObject)
      requires Shape() && a in alarms && a.link != null && a.link !in requests.elems && a.link.owner == a
      modifies requests, requests.elems, a.link
      ensures Shape()
      ensures var p := Position(old(requests.Ranks()), a.ticks);
        && Owners() == (if a.times != 0 then InsertAt(old(Owners()), p, a) else old(Owners()))
        && requests.Ranks() ==
           (if a.times != 0 then InsertAt(old(requests.Ranks()), p, a.ticks) else old(requests.Ranks()))
    {
      if a.times != 0 {
        SetRank(a);
        Enqueue(a);
      }
    }

    method SetRank(a: AlarmObject)
      requires Shape() && a.link != null && a.link !in requests.elems
      modifies a.link`key
      ensures Shape() && a.link.key == a.ticks
      ensures Owners() == old(Owners()) && requests.Ranks() == old(requests.Ranks())
    {
      a.link.key := a.ticks;
    }

    method TakeHead() returns (e: Element<AlarmObject>)
      requires Shape() && requests.elems != []
      modifies requests, requests.elems`prev
      ensures Shape()
      ensures e == old(requests.elems)[0] && requests.elems == old(requests.elems)[1..]
      ensures e.owner in alarms && e.owner.link == e && e !in requests.elems
      ensures Owners() == old(Owners())[1..]
      ensures e.key == old(requests.Ranks())[0]
      ensures requests.Ranks() == Less(old(requests.Ranks())[1..], old(requests.Ranks())[0])
    {
      HeadlessRanks(requests.Keys());
      e := requests.Remove();
    }

    method Recount(a: AlarmObject)
      requires a in alarms
      modifies a`times, a`armed, a`fires
      ensures a.Record() == Fired(old(a.Record()), elapsed)
    {
      if a.times != INFINITE {
        a.times := Decremented(a.times);
      }
      a.armed, a.fires := elapsed, a.fires + 1;
    }

    method Enqueue(a: AlarmObject)
      requires Shape() && a in alarms && a.link != null && a.link !in requests.elems && a.link.owner == a
      modifies requests, requests.elems, a.link
      ensures Shape()
      ensures var p := Position(old(requests.Ranks()), old(a.link.key));
        && Owners() == InsertAt(old(Owners()), p, a)
        && requests.Ranks() == InsertAt(old(requests.Ranks()), p, old(a.link.key))
        && requests.elems == InsertAt(old(requests.elems), p, a.link)
    {
      hide List.Valid, List.Ranks, List.Keys, OwnersOf;
      ghost var p := Position(requests.Ranks(), a.link.key);
      InsertMembers<Element<AlarmObject>>(requests.elems, p, a.link);
      OwnersInsert(requests.elems, p, a.link);
      requests.Insert(a.link);
    }
  }
}
