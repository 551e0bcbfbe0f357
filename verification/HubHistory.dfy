/** What the hub knows of a device, told from the events alone: its newest report since it was
    last forgotten. */
module HubHistory {
  import opened Options
  import opened Sets
  import opened Grid
  import opened HubState
  import opened TickFrames

  predicate Forgets(e: HubEvent, d: DeviceId) {
    e == Gone(d)
  }

  /** `item` was heard of device `d` at event `i` and the device was not forgotten since; event
      -1 stands for what the hub knew at the start. */
  ghost predicate Heard(h: Hub, es: seq<HubEvent>, d: DeviceId, i: int, item: Item) {
    && -1 <= i < |es|
    && (if i == -1 then d in h.latest && h.latest[d].item == item else es[i] == Report(item) && item.device == d)
    && forall j :: i < j < |es| ==> !Forgets(es[j], d)
  }

  /** The newest of what was heard; of equally new ones the first. */
  ghost predicate Newest(h: Hub, es: seq<HubEvent>, d: DeviceId, i: int, item: Item) {
    && Heard(h, es, d, i, item)
    && forall j, other :: Heard(h, es, d, j, other) ==> if j < i then other.at < item.at else other.at <= item.at
  }

  lemma HeardBefore(h: Hub, es: seq<HubEvent>, e: HubEvent, d: DeviceId, i: int, item: Item)
    requires i < |es|
    ensures Heard(h, es + [e], d, i, item) <==> Heard(h, es, d, i, item) && !Forgets(e, d)
  {
    var longer := es + [e];
    assert forall j :: 0 <= j < |es| ==> longer[j] == es[j];
    assert longer[|es|] == e;
  }

  lemma HeardLast(h: Hub, es: seq<HubEvent>, e: HubEvent, d: DeviceId, item: Item)
    ensures Heard(h, es + [e], d, |es|, item) <==> e == Report(item) && item.device == d
  {
    assert (es + [e])[|es|] == e;
  }

  /** Nothing new was accepted: what was newest still is. */
  lemma StaysNewest(h: Hub, es: seq<HubEvent>, e: HubEvent, d: DeviceId, i: int, item: Item)
    requires Newest(h, es, d, i, item) && !Forgets(e, d)
    requires e.Report? && e.item.device == d ==> e.item.at <= item.at
    ensures Newest(h, es + [e], d, i, item)
  {
    HeardBefore(h, es, e, d, i, item);
    forall j, other | Heard(h, es + [e], d, j, other)
      ensures if j < i then other.at < item.at else other.at <= item.at
    {
      if j < |es| { HeardBefore(h, es, e, d, j, other); } else { HeardLast(h, es, e, d, other); }
    }
  }

  lemma BecomesNewest(h: Hub, es: seq<HubEvent>, d: DeviceId, item: Item)
    requires item.device == d
    requires forall j, other :: Heard(h, es, d, j, other) ==> other.at < item.at
    ensures Newest(h, es + [Report(item)], d, |es|, item)
  {
    var e := Report(item);
    HeardLast(h, es, e, d, item);
    forall j, other | Heard(h, es + [e], d, j, other)
      ensures if j < |es| then other.at < item.at else other.at <= item.at
    {
      if j < |es| { HeardBefore(h, es, e, d, j, other); } else { HeardLast(h, es, e, d, other); }
    }
  }

  ghost predicate Known(h: Hub, es: seq<HubEvent>, d: DeviceId)
    requires h.size > 0 && d in HubRun(h, es).latest
  {
    exists i :: Newest(h, es, d, i, HubRun(h, es).latest[d].item)
  }

  ghost predicate Unheard(h: Hub, es: seq<HubEvent>, d: DeviceId) {
    forall i, item :: !Heard(h, es, d, i, item)
  }

  /** What one event does to one device. */
  lemma EventOnDevice(h: Hub, e: HubEvent, d: DeviceId)
    requires h.size > 0
    ensures var h' := HubStep(h, e);
            if Forgets(e, d) then d !in h'.latest
            else if e.Report? && e.item.device == d && (d in h.latest ==> e.item.at > h.latest[d].item.at) then
              d in h'.latest && h'.latest[d].item == e.item
            else (d in h'.latest <==> d in h.latest) && (d in h.latest ==> h'.latest[d] == h.latest[d])
  {
  }

  lemma SilentStep(h: Hub, es: seq<HubEvent>, e: HubEvent, d: DeviceId)
    requires (Unheard(h, es, d) && !(e.Report? && e.item.device == d)) || Forgets(e, d)
    ensures Unheard(h, es + [e], d)
  {
    forall i, item ensures !Heard(h, es + [e], d, i, item) {
      if i < |es| { HeardBefore(h, es, e, d, i, item); } else { HeardLast(h, es, e, d, item); }
    }
  }

  /** The newest report wins, over every run of reports and forgettings: the hub holds a device
      exactly when it was heard of since it was last forgotten, and then with the newest
      report heard, the first of equally new ones. */
  lemma {:induction false} LatestIsNewest(h: Hub, es: seq<HubEvent>, d: DeviceId)
    requires h.size > 0
    ensures d in HubRun(h, es).latest ==> Known(h, es, d)
    ensures d !in HubRun(h, es).latest ==> Unheard(h, es, d)
  {
    if es == [] {
      if d in h.latest { assert Newest(h, es, d, -1, h.latest[d].item); }
    } else {
      var init, e := es[..|es| - 1], es[|es| - 1];
      var before := HubRun(h, init);
      assert es == init + [e];
      LatestIsNewest(h, init, d);
      EventOnDevice(before, e, d);
      if d in before.latest {
        var i :| Newest(h, init, d, i, before.latest[d].item);
        if Forgets(e, d) {
          SilentStep(h, init, e, d);
        } else if e.Report? && e.item.device == d && e.item.at > before.latest[d].item.at {
          BecomesNewest(h, init, d, e.item);
          assert Newest(h, es, d, |init|, e.item);
        } else {
          StaysNewest(h, init, e, d, i, before.latest[d].item);
        }
      } else if e.Report? && e.item.device == d {
        BecomesNewest(h, init, d, e.item);
        assert Newest(h, es, d, |init|, e.item);
      } else {
        SilentStep(h, init, e, d);
      }
    }
  }

  /** How many of the first `n` reports were newer than what the hub knew of their device. */
  function News(h: Hub, items: seq<Item>, n: nat): nat
    requires h.size > 0 && n <= |items|
  {
    if n == 0 then 0
    else
      var before, item := ApplyAll(h, items[..n - 1]).latest, items[n - 1];
      News(h, items, n - 1) + One(item.device in before ==> item.at > before[item.device].item.at)
  }

  lemma {:induction false} NewsPrefix(h: Hub, items: seq<Item>, m: nat, n: nat)
    requires h.size > 0 && n <= m <= |items|
    ensures News(h, items[..m], n) == News(h, items, n)
  {
    if n > 0 {
      NewsPrefix(h, items, m, n - 1);
      assert items[..m][..n - 1] == items[..n - 1];
    }
  }

  lemma CountsNews(h: Hub, item: Item)
    requires h.size > 0
    ensures ApplyItem(h, item).updates ==
              h.updates + One(item.device in h.latest ==> item.at > h.latest[item.device].item.at)
  {
  }

  /** The update counter counts exactly the reports that were news. */
  lemma {:induction false} UpdatesAreNews(h: Hub, items: seq<Item>)
    requires h.size > 0
    ensures ApplyAll(h, items).updates == h.updates + News(h, items, |items|)
  {
    if items != [] {
      var init, last := items[..|items| - 1], items[|items| - 1];
      UpdatesAreNews(h, init);
      NewsPrefix(h, items, |init|, |init|);
      CountsNews(ApplyAll(h, init), last);
    }
  }
}
