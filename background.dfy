/** The background worker: the `glimpseTabData` table, keyed by origin tab
    id, that the close, expand and tab-removal handlers delete from, and the
    `onMessage` switch that maps each action to a reply. The table is a
    JavaScript Map, so it is modelled as a sequence of entries in insertion
    order with distinct keys. Calls into `chrome.tabs` are recorded as
    requests; their outcomes are inputs. */
module Background {
  import opened Common

  datatype TabData = TabData(hiddenTabId: int)
  datatype Entry = Entry(originTabId: int, data: TabData)

  /** A request the worker makes of the browser's tab API. */
  datatype TabRequest = TabsCreate(url: string) | TabsActivate(tabId: int) | TabsRemove(tabId: int)

  /** The object passed to sendResponse. */
  datatype Reply =
    | TabIdReply(senderTabId: Option<int>)   // { tabId: sender.tab?.id }
    | Success                          // { success: true }
    | SuccessTab(tabId: int)           // { success: true, tabId }
    | SuccessHtml(html: string)        // { success: true, html }
    | Failure(error: string)           // { success: false, error }

  predicate DistinctKeys(t: seq<Entry>)
  {
    forall i, j :: 0 <= i < j < |t| ==> t[i].originTabId != t[j].originTabId
  }

  predicate NoKey(t: seq<Entry>, key: int)
  {
    forall j :: 0 <= j < |t| ==> t[j].originTabId != key
  }

  // ---------------------------------------------------------------------
  // Searching the table

  /** The position of the entry for key, at or after i. */
  function KeyIndexFrom(t: seq<Entry>, key: int, i: nat): (r: Option<nat>)
    requires i <= |t|
    ensures r.Some? ==> i <= r.value < |t| && t[r.value].originTabId == key
    ensures r.None? ==> forall j :: i <= j < |t| ==> t[j].originTabId != key
    decreases |t| - i
  {
    if i == |t| then None
    else if t[i].originTabId == key then Some(i)
    else KeyIndexFrom(t, key, i + 1)
  }

  function KeyIndex(t: seq<Entry>, key: int): (r: Option<nat>)
    ensures r.Some? ==> r.value < |t| && t[r.value].originTabId == key
    ensures r.None? ==> NoKey(t, key)
  {
    KeyIndexFrom(t, key, 0)
  }

  /** Map.get: the data stored under key, if any. */
  function Lookup(t: seq<Entry>, key: Option<int>): (r: Option<TabData>)
    ensures key.None? ==> r.None?
    ensures key.Some? && r.None? ==> NoKey(t, key.value)
    ensures r.Some? ==> key.Some? && exists j :: 0 <= j < |t| && t[j] == Entry(key.value, r.value)
  {
    if key.None? then None
    else match KeyIndex(t, key.value)
      case None => None
      case Some(i) => assert t[i] == Entry(key.value, t[i].data); Some(t[i].data)
  }

  /** The first position at or after i whose hidden tab is tabId. */
  function HiddenIndexFrom(t: seq<Entry>, tabId: int, i: nat): (r: Option<nat>)
    requires i <= |t|
    ensures r.Some? ==> i <= r.value < |t| && t[r.value].data.hiddenTabId == tabId
    ensures r.Some? ==> forall j :: i <= j < r.value ==> t[j].data.hiddenTabId != tabId
    ensures r.None? ==> forall j :: i <= j < |t| ==> t[j].data.hiddenTabId != tabId
    decreases |t| - i
  {
    if i == |t| then None
    else if t[i].data.hiddenTabId == tabId then Some(i)
    else HiddenIndexFrom(t, tabId, i + 1)
  }

  /** The first entry in iteration order whose hidden tab is tabId. */
  function FirstHidden(t: seq<Entry>, tabId: int): (r: Option<nat>)
    ensures r.Some? ==> r.value < |t| && t[r.value].data.hiddenTabId == tabId
    ensures r.Some? ==> forall j :: 0 <= j < r.value ==> t[j].data.hiddenTabId != tabId
    ensures r.None? ==> forall j :: 0 <= j < |t| ==> t[j].data.hiddenTabId != tabId
  {
    HiddenIndexFrom(t, tabId, 0)
  }

  // ---------------------------------------------------------------------
  // Deleting from the table

  function RemoveAt(t: seq<Entry>, i: nat): (r: seq<Entry>)
    requires i < |t|
    ensures |r| == |t| - 1
    ensures forall j :: 0 <= j < i ==> r[j] == t[j]
    ensures forall j :: i <= j < |r| ==> r[j] == t[j + 1]
  {
    t[..i] + t[i + 1..]
  }

  lemma RemoveAtKeeps(t: seq<Entry>, i: nat, j: nat)
    requires i < |t| && j < |t| && j != i
    ensures t[j] in RemoveAt(t, i)
  {
    var r := RemoveAt(t, i);
    if j < i { assert r[j] == t[j]; } else { assert r[j - 1] == t[j]; }
  }

  lemma RemoveAtFrom(t: seq<Entry>, i: nat, e: Entry)
    requires i < |t| && e in RemoveAt(t, i)
    ensures e in t
  {
    var r := RemoveAt(t, i);
    var k :| 0 <= k < |r| && r[k] == e;
    if k < i { assert t[k] == e; } else { assert t[k + 1] == e; }
  }

  lemma RemoveAtDistinct(t: seq<Entry>, i: nat)
    requires i < |t| && DistinctKeys(t)
    ensures DistinctKeys(RemoveAt(t, i))
  {
    var r := RemoveAt(t, i);
    forall a, b | 0 <= a < b < |r|
      ensures r[a].originTabId != r[b].originTabId
    {
      var a' := if a < i then a else a + 1;
      var b' := if b < i then b else b + 1;
      assert r[a] == t[a'] && r[b] == t[b'] && a' < b';
    }
  }

  /** Map.delete: drop the entry for key, if there is one. */
  function Delete(t: seq<Entry>, key: int): (r: seq<Entry>)
    ensures KeyIndex(t, key).None? ==> r == t
    ensures KeyIndex(t, key).Some? ==> r == RemoveAt(t, KeyIndex(t, key).value)
  {
    match KeyIndex(t, key)
    case None => t
    case Some(i) => RemoveAt(t, i)
  }

  /** With distinct keys, Delete removes exactly the entry for key. */
  lemma DeleteSound(t: seq<Entry>, key: int)
    requires DistinctKeys(t)
    ensures DistinctKeys(Delete(t, key))
    ensures NoKey(Delete(t, key), key)
    ensures |Delete(t, key)| == if NoKey(t, key) then |t| else |t| - 1
    ensures forall j :: 0 <= j < |t| && t[j].originTabId != key ==> t[j] in Delete(t, key)
    ensures forall e :: e in Delete(t, key) ==> e in t
  {
    match KeyIndex(t, key)
    case None =>
    case Some(i) =>
      RemoveAtDistinct(t, i);
      var r := RemoveAt(t, i);
      forall j | 0 <= j < |r|
        ensures r[j].originTabId != key
      {
        if j < i { assert r[j] == t[j]; } else { assert r[j] == t[j + 1]; }
      }
      forall j | 0 <= j < |t| && t[j].originTabId != key
        ensures t[j] in r
      {
        RemoveAtKeeps(t, i, j);
      }
      forall e | e in r
        ensures e in t
      {
        RemoveAtFrom(t, i, e);
      }
  }

  // ---------------------------------------------------------------------
  // chrome.tabs.onRemoved

  /** The scan of the table: the first entry whose hidden tab was closed is
      deleted, and the scan stops there. */
  function AfterHiddenScan(t: seq<Entry>, tabId: int): (r: seq<Entry>)
    ensures FirstHidden(t, tabId).None? ==> r == t
    ensures FirstHidden(t, tabId).Some? ==>
              var i := FirstHidden(t, tabId).value;
              && |r| == |t| - 1
              && (forall j :: 0 <= j < i ==> r[j] == t[j])
              && (forall j :: i <= j < |r| ==> r[j] == t[j + 1])
  {
    match FirstHidden(t, tabId)
    case None => t
    case Some(i) => RemoveAt(t, i)
  }

  /** The table after the handler: the scan, then the entry keyed by the
      closed tab itself, if it is still there. */
  function AfterTabRemoved(t: seq<Entry>, tabId: int): (r: seq<Entry>)
    ensures |t| - 2 <= |r| <= |t|
    ensures NoKey(t, tabId) && FirstHidden(t, tabId).None? ==> r == t
  {
    Delete(AfterHiddenScan(t, tabId), tabId)
  }

  /** The tab removals the handler asks for: the hidden tab of the closed
      origin tab's entry, looked up after the scan. */
  function RemovalRequests(t: seq<Entry>, tabId: int): (rs: seq<TabRequest>)
    ensures |rs| <= 1
  {
    match Lookup(AfterHiddenScan(t, tabId), Some(tabId))
    case None => []
    case Some(d) => [TabsRemove(d.hiddenTabId)]
  }

  /** The scan deletes exactly one entry, the first whose hidden tab is the
      closed one, or none when no entry has it. */
  lemma HiddenScanDeletesFirstOnly(t: seq<Entry>, tabId: int)
    ensures FirstHidden(t, tabId).None? ==> AfterHiddenScan(t, tabId) == t
    ensures FirstHidden(t, tabId).Some? ==> |AfterHiddenScan(t, tabId)| == |t| - 1
    ensures forall j :: 0 <= j < |t| && FirstHidden(t, tabId) != Some(j) ==> t[j] in AfterHiddenScan(t, tabId)
  {
    match FirstHidden(t, tabId)
    case None =>
    case Some(i) =>
      forall j | 0 <= j < |t| && j != i
        ensures t[j] in AfterHiddenScan(t, tabId)
      {
        RemoveAtKeeps(t, i, j);
      }
  }

  /** onRemoved deletes no entry other than the first whose hidden tab was
      closed and the one keyed by the closed tab; it leaves no entry keyed by
      the closed tab, adds nothing and keeps the keys distinct. */
  lemma TabRemovedDeletesOnlyThose(t: seq<Entry>, tabId: int)
    requires DistinctKeys(t)
    ensures DistinctKeys(AfterTabRemoved(t, tabId))
    ensures NoKey(AfterTabRemoved(t, tabId), tabId)
    ensures forall e :: e in AfterTabRemoved(t, tabId) ==> e in t
    ensures forall j :: 0 <= j < |t| && FirstHidden(t, tabId) != Some(j) && t[j].originTabId != tabId ==>
              t[j] in AfterTabRemoved(t, tabId)
    ensures |t| - 2 <= |AfterTabRemoved(t, tabId)| <= |t|
  {
    var s := AfterHiddenScan(t, tabId);
    HiddenScanDeletesFirstOnly(t, tabId);
    if FirstHidden(t, tabId).Some? {
      RemoveAtDistinct(t, FirstHidden(t, tabId).value);
      forall e | e in s
        ensures e in t
      {
        RemoveAtFrom(t, FirstHidden(t, tabId).value, e);
      }
    }
    DeleteSound(s, tabId);
    forall j | 0 <= j < |t| && FirstHidden(t, tabId) != Some(j) && t[j].originTabId != tabId
      ensures t[j] in AfterTabRemoved(t, tabId)
    {
      var k :| 0 <= k < |s| && s[k] == t[j];
    }
  }

  /** When two entries share the closed hidden tab, only the first goes. */
  lemma FirstMatchThenBreak()
    ensures AfterTabRemoved([Entry(1, TabData(9)), Entry(2, TabData(9))], 9) == [Entry(2, TabData(9))]
  {
    var t := [Entry(1, TabData(9)), Entry(2, TabData(9))];
    assert FirstHidden(t, 9) == Some(0);
    assert AfterHiddenScan(t, 9) == [Entry(2, TabData(9))];
  }

  /** An entry whose own hidden tab is not the closed one survives the
      scan and is still found under its key. */
  lemma ScanKeepsOrigin(t: seq<Entry>, tabId: int, i: nat)
    requires DistinctKeys(t) && i < |t| && t[i].originTabId == tabId
    requires t[i].data.hiddenTabId != tabId
    ensures Lookup(AfterHiddenScan(t, tabId), Some(tabId)) == Some(t[i].data)
  {
    var s := AfterHiddenScan(t, tabId);
    HiddenScanDeletesFirstOnly(t, tabId);
    assert FirstHidden(t, tabId) != Some(i);
    assert t[i] in s;
    var k :| 0 <= k < |s| && s[k] == t[i];
    if FirstHidden(t, tabId).Some? {
      RemoveAtDistinct(t, FirstHidden(t, tabId).value);
    }
    assert DistinctKeys(s);
    var found := KeyIndex(s, tabId);
    assert !NoKey(s, tabId);
    assert found.Some? && s[found.value].originTabId == s[k].originTabId;
    assert found == Some(k);
  }

  /** An entry whose hidden tab is its own origin tab is deleted by the scan,
      so closing that tab requests no removal. */
  lemma OwnHiddenTabScannedFirst()
    ensures RemovalRequests([Entry(5, TabData(5))], 5) == []
    ensures AfterTabRemoved([Entry(5, TabData(5))], 5) == []
  {
    assert FirstHidden([Entry(5, TabData(5))], 5) == Some(0);
  }

  /** Closing an origin tab requests the removal of its hidden tab. */
  lemma OriginClosedRemovesHidden(t: seq<Entry>, tabId: int, i: nat)
    requires DistinctKeys(t) && i < |t| && t[i].originTabId == tabId
    requires t[i].data.hiddenTabId != tabId
    ensures RemovalRequests(t, tabId) == [TabsRemove(t[i].data.hiddenTabId)]
    ensures NoKey(AfterTabRemoved(t, tabId), tabId)
  {
    ScanKeepsOrigin(t, tabId, i);
    TabRemovedDeletesOnlyThose(t, tabId);
  }

  // ---------------------------------------------------------------------
  // The message handlers

  /** What a handler does: its reply, the table afterwards and the tab
      requests it made, in order. */
  datatype Effect = Effect(reply: Reply, table: seq<Entry>, issued: seq<TabRequest>)

  /** The outcome of chrome.tabs.create. */
  datatype CreateOutcome = Created(tabId: int) | CreateThrew(message: string)

  function CreateTabEffect(t: seq<Entry>, url: string, outcome: CreateOutcome): (eff: Effect)
    ensures eff.table == t && eff.issued == [TabsCreate(url)]
    ensures eff.reply.SuccessTab? <==> outcome.Created?
    ensures outcome.Created? ==> eff.reply.tabId == outcome.tabId
    ensures outcome.CreateThrew? ==> eff.reply == Failure(outcome.message)
  {
    match outcome
    case Created(id) => Effect(SuccessTab(id), t, [TabsCreate(url)])
    case CreateThrew(m) => Effect(Failure(m), t, [TabsCreate(url)])
  }

  /** closeHiddenTab: removeError is the message chrome.tabs.remove throws,
      if it throws. */
  function CloseHiddenEffect(t: seq<Entry>, key: Option<int>, removeError: Option<string>): (eff: Effect)
    ensures Lookup(t, key).None? ==> eff == Effect(Success, t, [])
    ensures Lookup(t, key).Some? ==> eff.issued == [TabsRemove(Lookup(t, key).value.hiddenTabId)]
    ensures Lookup(t, key).Some? && removeError.None? ==> eff.reply == Success && eff.table == Delete(t, key.value)
    ensures Lookup(t, key).Some? && removeError.Some? ==> eff.reply == Failure(removeError.value) && eff.table == t
  {
    match Lookup(t, key)
    case None => Effect(Success, t, [])
    case Some(d) =>
      match removeError
      case None => Effect(Success, Delete(t, key.value), [TabsRemove(d.hiddenTabId)])
      case Some(m) => Effect(Failure(m), t, [TabsRemove(d.hiddenTabId)])
  }

  /** expandHiddenTab: updateError is the message chrome.tabs.update throws,
      if it throws. */
  function ExpandHiddenEffect(t: seq<Entry>, key: Option<int>, updateError: Option<string>): (eff: Effect)
    ensures Lookup(t, key).None? ==> eff == Effect(Failure("No hidden tab found"), t, [])
    ensures Lookup(t, key).Some? ==> eff.issued == [TabsActivate(Lookup(t, key).value.hiddenTabId)]
    ensures Lookup(t, key).Some? && updateError.None? ==> eff.reply == Success && eff.table == Delete(t, key.value)
    ensures Lookup(t, key).Some? && updateError.Some? ==> eff.reply == Failure(updateError.value) && eff.table == t
  {
    match Lookup(t, key)
    case None => Effect(Failure("No hidden tab found"), t, [])
    case Some(d) =>
      match updateError
      case None => Effect(Success, Delete(t, key.value), [TabsActivate(d.hiddenTabId)])
      case Some(m) => Effect(Failure(m), t, [TabsActivate(d.hiddenTabId)])
  }

  /** A close or expand that succeeds leaves no entry for the key and
      shrinks the table by exactly the entry it found. */
  lemma SuccessfulDeleteRemovesKey(t: seq<Entry>, key: int)
    requires DistinctKeys(t) && Lookup(t, Some(key)).Some?
    ensures NoKey(CloseHiddenEffect(t, Some(key), None).table, key)
    ensures NoKey(ExpandHiddenEffect(t, Some(key), None).table, key)
    ensures |CloseHiddenEffect(t, Some(key), None).table| == |t| - 1
    ensures DistinctKeys(CloseHiddenEffect(t, Some(key), None).table)
    ensures |ExpandHiddenEffect(t, Some(key), None).table| == |t| - 1
    ensures DistinctKeys(ExpandHiddenEffect(t, Some(key), None).table)
  {
    DeleteSound(t, key);
    var d := Lookup(t, Some(key)).value;
    var j :| 0 <= j < |t| && t[j] == Entry(key, d);
    assert !NoKey(t, key);
  }

  /** What fetch produced: a network failure, or a response. */
  datatype FetchOutcome = NetworkError(message: string) | Response(status: int, body: string)

  /** fetchForGlimpse's reply. `response.ok` holds for statuses 200-299. */
  function FetchReply(f: FetchOutcome): (r: Reply)
    ensures r.SuccessHtml? <==> f.Response? && 200 <= f.status <= 299
    ensures r.SuccessHtml? ==> r.html == f.body
    ensures f.NetworkError? ==> r == Failure(f.message)
    ensures f.Response? && !(200 <= f.status <= 299) ==> r == Failure("HTTP error! Status: " + Decimal(f.status))
  {
    match f
    case NetworkError(m) => Failure(m)
    case Response(status, body) =>
      if 200 <= status <= 299 then SuccessHtml(body) else Failure("HTTP error! Status: " + Decimal(status))
  }

  /** The fields of a message the switch reads. */
  datatype Message = Message(action: string, url: string, originTabId: Option<int>)

  /** The outcomes of whichever asynchronous call the action makes. */
  datatype Environment = Environment(created: CreateOutcome, removeError: Option<string>, fetched: FetchOutcome)

  /** What onMessage does: the effect, and whether the listener returned
      true to keep the channel open for a later reply. */
  datatype Dispatched = Dispatched(effect: Effect, keepOpen: bool)

  function Dispatch(t: seq<Entry>, msg: Message, senderTab: Option<int>, env: Environment): (d: Dispatched)
    ensures msg.action == "getCurrentTabId" ==> d == Dispatched(Effect(TabIdReply(senderTab), t, []), false)
    ensures msg.action == "createTab" ==> d == Dispatched(CreateTabEffect(t, msg.url, env.created), true)
    ensures msg.action == "fetchForGlimpse" ==> d == Dispatched(Effect(FetchReply(env.fetched), t, []), true)
    ensures msg.action == "closeGlimpse" ==> d == Dispatched(CloseHiddenEffect(t, msg.originTabId, env.removeError), true)
    ensures msg.action !in {"getCurrentTabId", "createTab", "fetchForGlimpse", "closeGlimpse"} ==>
              d == Dispatched(Effect(Failure("Unknown action"), t, []), false)
    ensures msg.action != "closeGlimpse" ==> d.effect.table == t
  {
    match msg.action
    case "getCurrentTabId" => Dispatched(Effect(TabIdReply(senderTab), t, []), false)
    case "createTab" => Dispatched(CreateTabEffect(t, msg.url, env.created), true)
    case "fetchForGlimpse" => Dispatched(Effect(FetchReply(env.fetched), t, []), true)
    case "closeGlimpse" => Dispatched(CloseHiddenEffect(t, msg.originTabId, env.removeError), true)
    case _ => Dispatched(Effect(Failure("Unknown action"), t, []), false)
  }

  /** No message ever adds an entry, and every message keeps the keys
      distinct. */
  lemma DispatchOnlyShrinks(t: seq<Entry>, msg: Message, senderTab: Option<int>, env: Environment)
    requires DistinctKeys(t)
    ensures DistinctKeys(Dispatch(t, msg, senderTab, env).effect.table)
    ensures forall e :: e in Dispatch(t, msg, senderTab, env).effect.table ==> e in t
  {
    if msg.action == "closeGlimpse" && msg.originTabId.Some? {
      DeleteSound(t, msg.originTabId.value);
    }
  }

  // ---------------------------------------------------------------------
  // The worker

  class Worker {
    /** glimpseTabData, in insertion order. */
    var glimpseTabData: seq<Entry>
    /** Every chrome.tabs request made so far, in order. */
    var requests: seq<TabRequest>

    ghost predicate Valid()
      reads this
    {
      DistinctKeys(glimpseTabData)
    }

    constructor ()
      ensures Valid() && glimpseTabData == [] && requests == []
    {
      glimpseTabData := [];
      requests := [];
    }

    method OnMessage(msg: Message, senderTab: Option<int>, env: Environment) returns (reply: Reply, keepOpen: bool)
      requires Valid()
      modifies this
      ensures Valid()
      ensures var d := Dispatch(old(glimpseTabData), msg, senderTab, env);
              reply == d.effect.reply && keepOpen == d.keepOpen &&
              glimpseTabData == d.effect.table && requests == old(requests) + d.effect.issued
    {
      match msg.action
      case "getCurrentTabId" =>
        reply, keepOpen := TabIdReply(senderTab), false;
      case "createTab" =>
        reply := CreateTab(msg.url, env.created);
        keepOpen := true;
      case "fetchForGlimpse" =>
        reply, keepOpen := FetchReply(env.fetched), true;
      case "closeGlimpse" =>
        reply := CloseHiddenTab(msg.originTabId, env.removeError);
        keepOpen := true;
      case _ =>
        reply, keepOpen := Failure("Unknown action"), false;
    }

    method CreateTab(url: string, outcome: CreateOutcome) returns (reply: Reply)
      requires Valid()
      modifies this
      ensures Valid()
      ensures var eff := CreateTabEffect(old(glimpseTabData), url, outcome);
              reply == eff.reply && glimpseTabData == eff.table && requests == old(requests) + eff.issued
    {
      requests := requests + [TabsCreate(url)];
      match outcome
      case Created(id) => reply := SuccessTab(id);
      case CreateThrew(m) => reply := Failure(m);
    }

    method CloseHiddenTab(originTabId: Option<int>, removeError: Option<string>) returns (reply: Reply)
      requires Valid()
      modifies this
      ensures Valid()
      ensures var eff := CloseHiddenEffect(old(glimpseTabData), originTabId, removeError);
              reply == eff.reply && glimpseTabData == eff.table && requests == old(requests) + eff.issued
    {
      var tabData := Lookup(glimpseTabData, originTabId);
      if tabData.Some? {
        requests := requests + [TabsRemove(tabData.value.hiddenTabId)];
        if removeError.Some? {
          return Failure(removeError.value);
        }
        DeleteSound(glimpseTabData, originTabId.value);
        glimpseTabData := Delete(glimpseTabData, originTabId.value);
      }
      reply := Success;
    }

    method ExpandHiddenTab(originTabId: Option<int>, updateError: Option<string>) returns (reply: Reply)
      requires Valid()
      modifies this
      ensures Valid()
      ensures var eff := ExpandHiddenEffect(old(glimpseTabData), originTabId, updateError);
              reply == eff.reply && glimpseTabData == eff.table && requests == old(requests) + eff.issued
    {
      var tabData := Lookup(glimpseTabData, originTabId);
      if tabData.None? {
        return Failure("No hidden tab found");
      }
      requests := requests + [TabsActivate(tabData.value.hiddenTabId)];
      if updateError.Some? {
        return Failure(updateError.value);
      }
      DeleteSound(glimpseTabData, originTabId.value);
      glimpseTabData := Delete(glimpseTabData, originTabId.value);
      reply := Success;
    }

    /** chrome.tabs.onRemoved: scan for the first entry whose hidden tab
        was closed and delete it; then, if the closed tab is itself a key,
        ask for its hidden tab to be removed and delete its entry. */
    method OnRemoved(tabId: int)
      requires Valid()
      modifies this
      ensures Valid()
      ensures glimpseTabData == AfterTabRemoved(old(glimpseTabData), tabId)
      ensures requests == old(requests) + RemovalRequests(old(glimpseTabData), tabId)
    {
      ghost var t0 := glimpseTabData;
      var i := 0;
      while i < |glimpseTabData|
        invariant glimpseTabData == t0
        invariant 0 <= i <= |t0|
        invariant forall j :: 0 <= j < i ==> t0[j].data.hiddenTabId != tabId
      {
        if glimpseTabData[i].data.hiddenTabId == tabId {
          assert FirstHidden(t0, tabId) == Some(i);
          RemoveAtDistinct(glimpseTabData, i);
          glimpseTabData := RemoveAt(glimpseTabData, i);
          break;
        }
        i := i + 1;
      }
      assert glimpseTabData == AfterHiddenScan(t0, tabId);
      var data := Lookup(glimpseTabData, Some(tabId));
      if data.Some? {
        requests := requests + [TabsRemove(data.value.hiddenTabId)];
        DeleteSound(glimpseTabData, tabId);
        glimpseTabData := Delete(glimpseTabData, tabId);
      }
    }
  }
}
