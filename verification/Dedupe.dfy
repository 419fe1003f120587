// The capped sets that keep app and plugin use from being reported twice in a turn. Each call
// holds the set's lock, so a run is a sequence of calls.
module Dedupe {
  import opened Prelude

  const MAX_KEYS := 4096

  // A turn id with a connector or plugin id.
  type Key = (string, string)

  // The plugin check makes room before it looks for a key, the app check after.
  datatype Check = App | Plugin

  function MakeRoom(emitted: set<Key>): set<Key> {
    if |emitted| >= MAX_KEYS then {} else emitted
  }

  function Cleared(check: Check, emitted: set<Key>, key: Option<Key>): set<Key> {
    if key.None? && check.App? then emitted else MakeRoom(emitted)
  }

  function Insert(check: Check, emitted: set<Key>, key: Option<Key>): set<Key> {
    Cleared(check, emitted, key) + if key.Some? then {key.value} else {}
  }

  predicate Admits(check: Check, emitted: set<Key>, key: Option<Key>) {
    key.Some? ==> key.value !in Cleared(check, emitted, key)
  }

  function AppKey(turnId: string, connectorId: Option<string>): Option<Key> {
    if connectorId.Some? then Some((turnId, connectorId.value)) else None
  }

  function PluginKey(turnId: string, pluginId: Option<string>, remotePluginId: Option<string>): Option<Key> {
    if pluginId.Some? then Some((turnId, pluginId.value))
    else if remotePluginId.Some? then Some((turnId, remotePluginId.value))
    else None
  }

  class EmittedKeys {
    var keys: set<Key>

    constructor ()
      ensures keys == {}
    {
      keys := {};
    }

    method ShouldEnqueueAppUsed(turnId: string, connectorId: Option<string>) returns (enqueue: bool)
      modifies this
      ensures connectorId == None ==> enqueue && keys == old(keys)
      ensures connectorId.Some? ==>
                var was := if |old(keys)| >= 4096 then {} else old(keys);
                var key := (turnId, connectorId.value);
                keys == was + {key} && (enqueue <==> key !in was)
      ensures keys == Insert(App, old(keys), AppKey(turnId, connectorId))
      ensures enqueue == Admits(App, old(keys), AppKey(turnId, connectorId))
    {
      if connectorId.None? {
        return true;
      }
      if |keys| >= MAX_KEYS {
        keys := {};
      }
      enqueue := (turnId, connectorId.value) !in keys;
      keys := keys + {(turnId, connectorId.value)};
    }

    method ShouldEnqueuePluginUsed(turnId: string, pluginId: Option<string>, remotePluginId: Option<string>)
      returns (enqueue: bool)
      modifies this
      ensures var was := if |old(keys)| >= 4096 then {} else old(keys);
              && (pluginId == None && remotePluginId == None ==> enqueue && keys == was)
              && (pluginId.Some? ==>
                    keys == was + {(turnId, pluginId.value)} && (enqueue <==> (turnId, pluginId.value) !in was))
              && (pluginId == None && remotePluginId.Some? ==>
                    keys == was + {(turnId, remotePluginId.value)} && (enqueue <==> (turnId, remotePluginId.value) !in was))
      ensures keys == Insert(Plugin, old(keys), PluginKey(turnId, pluginId, remotePluginId))
      ensures enqueue == Admits(Plugin, old(keys), PluginKey(turnId, pluginId, remotePluginId))
    {
      if |keys| >= MAX_KEYS {
        keys := {};
      }
      var id := if pluginId.Some? then pluginId else remotePluginId;
      if id.None? {
        return true;
      }
      enqueue := (turnId, id.value) !in keys;
      keys := keys + {(turnId, id.value)};
    }
  }

  // ----- Runs -----

  type Calls = seq<Option<Key>>

  function After(check: Check, calls: Calls): set<Key> {
    if calls == [] then {}
    else Insert(check, After(check, calls[..|calls| - 1]), calls[|calls| - 1])
  }

  predicate Admitted(check: Check, calls: Calls, i: nat)
    requires i < |calls|
  {
    Admits(check, After(check, calls[..i]), calls[i])
  }

  predicate AdmittedKey(check: Check, calls: Calls, i: nat)
    requires i < |calls|
  {
    calls[i].Some? && Admitted(check, calls, i)
  }

  // How many calls with a key were admitted.
  function Admissions(check: Check, calls: Calls): nat {
    if calls == [] then 0
    else
      var n := |calls| - 1;
      Admissions(check, calls[..n]) + if AdmittedKey(check, calls, n) then 1 else 0
  }

  // How many calls with the key `k` were admitted.
  function Times(check: Check, calls: Calls, k: Key): nat {
    if calls == [] then 0
    else
      var n := |calls| - 1;
      Times(check, calls[..n], k) + if calls[n] == Some(k) && Admitted(check, calls, n) then 1 else 0
  }

  function Clears(check: Check, calls: Calls): nat {
    if calls == [] then 0
    else
      var n := |calls| - 1;
      var emitted := After(check, calls[..n]);
      Clears(check, calls[..n]) + if Cleared(check, emitted, calls[n]) != emitted then 1 else 0
  }

  function Keys(calls: Calls): set<Key> {
    set call | call in calls && call.Some? :: call.value
  }

  // A call admits a key, clears a full set, or both, and the size tells.
  lemma OneCall(check: Check, emitted: set<Key>, key: Option<Key>)
    requires |emitted| <= MAX_KEYS
    ensures var after := Insert(check, emitted, key);
            && |after| <= MAX_KEYS
            && |after| + (if Cleared(check, emitted, key) != emitted then MAX_KEYS else 0)
               == |emitted| + (if key.Some? && Admits(check, emitted, key) then 1 else 0)
  {
  }

  // The set never holds more than the cap, and admissions fill it between clears.
  lemma {:induction false} AdmissionsAreAccountedFor(check: Check, calls: Calls)
    ensures |After(check, calls)| <= MAX_KEYS
    ensures Admissions(check, calls) == MAX_KEYS * Clears(check, calls) + |After(check, calls)|
  {
    if calls != [] {
      var front, last := calls[..|calls| - 1], calls[|calls| - 1];
      AdmissionsAreAccountedFor(check, front);
      OneCall(check, After(check, front), last);
    }
  }

  lemma AdmittedInPrefix(check: Check, calls: Calls, n: nat, j: nat)
    requires j < n <= |calls|
    ensures Admitted(check, calls[..n], j) <==> Admitted(check, calls, j)
  {
    assert calls[..n][..j] == calls[..j];
  }

  // A key the set holds was admitted by an earlier call.
  lemma {:induction false} KeysHeldWereAdmitted(check: Check, calls: Calls, k: Key) returns (j: nat)
    requires k in After(check, calls)
    ensures j < |calls| && calls[j] == Some(k) && Admitted(check, calls, j)
  {
    var n := |calls| - 1;
    if k in After(check, calls[..n]) {
      j := KeysHeldWereAdmitted(check, calls[..n], k);
      AdmittedInPrefix(check, calls, n, j);
    } else {
      j := n;
    }
  }

  lemma SuppressedKeysWereAdmitted(check: Check, calls: Calls, i: nat)
    requires i < |calls| && !Admitted(check, calls, i)
    ensures calls[i].Some?
    ensures exists j: nat :: j < i && calls[j] == calls[i] && Admitted(check, calls, j)
  {
    var j := KeysHeldWereAdmitted(check, calls[..i], calls[i].value);
    AdmittedInPrefix(check, calls, i, j);
  }

  lemma KeysGrow(calls: Calls, call: Option<Key>)
    ensures Keys(calls + [call]) == Keys(calls) + if call.Some? then {call.value} else {}
  {
    forall k
      ensures k in Keys(calls + [call]) <==> k in Keys(calls) + if call.Some? then {call.value} else {}
    {
      assert k in Keys(calls + [call]) <==> Some(k) in calls + [call];
      assert k in Keys(calls) <==> Some(k) in calls;
    }
  }

  // Until the cap is reached the set is the unbounded one.
  lemma {:induction false} BelowCapHoldsEveryKey(check: Check, calls: Calls)
    requires |Keys(calls)| < MAX_KEYS
    ensures After(check, calls) == Keys(calls)
  {
    if calls != [] {
      var front, last := calls[..|calls| - 1], calls[|calls| - 1];
      assert calls == front + [last];
      KeysGrow(front, last);
      SubsetSize(Keys(front), Keys(calls));
      BelowCapHoldsEveryKey(check, front);
    }
  }

  // While fewer distinct keys than the cap came before, a call is admitted exactly when an
  // unbounded set would admit it.
  lemma BelowCapAgreesWithUnbounded(check: Check, calls: Calls, i: nat)
    requires i < |calls| && |Keys(calls[..i])| < MAX_KEYS
    ensures Admitted(check, calls, i) <==> (calls[i].Some? ==> calls[i] !in calls[..i])
  {
    var front := calls[..i];
    BelowCapHoldsEveryKey(check, front);
    if calls[i].Some? {
      assert calls[i].value in Keys(front) <==> Some(calls[i].value) in front;
    }
  }

  lemma {:induction false} TimesIsBoundedByClears(check: Check, calls: Calls, k: Key)
    ensures Times(check, calls, k) <= Clears(check, calls) + if k in After(check, calls) then 1 else 0
  {
    if calls != [] {
      TimesIsBoundedByClears(check, calls[..|calls| - 1], k);
    }
  }

  // With T keyed admissions in a run, one key is admitted at most T / 4096 times, rounded up.
  lemma EachKeyIsAdmittedRarely(check: Check, calls: Calls, k: Key)
    ensures MAX_KEYS * Times(check, calls, k) <= Admissions(check, calls) + MAX_KEYS - 1
    ensures Times(check, calls, k) <= 1 + Admissions(check, calls) / MAX_KEYS
  {
    AdmissionsAreAccountedFor(check, calls);
    TimesIsBoundedByClears(check, calls, k);
    if k in After(check, calls) {
      SubsetSize({k}, After(check, calls));
    }
  }

  // ----- Turns do not disturb each other -----

  datatype AppUse = AppUse(turn: string, connector: Option<string>)

  datatype PluginUse = PluginUse(turn: string, plugin: Option<string>, remote: Option<string>)

  function AppCalls(uses: seq<AppUse>): Calls {
    seq(|uses|, i requires 0 <= i < |uses| => AppKey(uses[i].turn, uses[i].connector))
  }

  function PluginCalls(uses: seq<PluginUse>): Calls {
    seq(|uses|, i requires 0 <= i < |uses| => PluginKey(uses[i].turn, uses[i].plugin, uses[i].remote))
  }

  // The distinct app uses that can be told apart.
  function AppsSeen(uses: seq<AppUse>): set<(string, string)> {
    set use | use in uses && use.connector.Some? :: (use.turn, use.connector.value)
  }

  // The id a plugin use goes by: its own or, failing that, its remote one.
  function NameOf(use: PluginUse): Option<string> {
    match use.plugin
    case Some(id) => Some(id)
    case None => use.remote
  }

  function NamedKey(use: PluginUse): Option<Key> {
    if NameOf(use).Some? then Some((use.turn, NameOf(use).value)) else None
  }

  lemma PluginKeyMeans(use: PluginUse)
    ensures PluginKey(use.turn, use.plugin, use.remote) == NamedKey(use)
  {}

  function PluginsSeen(uses: seq<PluginUse>): set<(string, string)> {
    set use | use in uses && NameOf(use).Some? :: (use.turn, NameOf(use).value)
  }

  lemma KeysOfApps(uses: seq<AppUse>)
    ensures Keys(AppCalls(uses)) == AppsSeen(uses)
  {
    var calls := AppCalls(uses);
    forall k | k in Keys(calls)
      ensures k in AppsSeen(uses)
    {
      var i :| 0 <= i < |calls| && calls[i] == Some(k);
      assert uses[i] in uses;
    }
    forall k | k in AppsSeen(uses)
      ensures k in Keys(calls)
    {
      var use :| use in uses && use.connector.Some? && (use.turn, use.connector.value) == k;
      var i :| 0 <= i < |uses| && uses[i] == use;
      assert calls[i] == Some(k) && calls[i] in calls;
    }
  }

  lemma KeysOfPlugins(uses: seq<PluginUse>)
    ensures Keys(PluginCalls(uses)) == PluginsSeen(uses)
  {
    var calls := PluginCalls(uses);
    forall k | k in Keys(calls)
      ensures k in PluginsSeen(uses)
    {
      var i :| 0 <= i < |calls| && calls[i] == Some(k);
      assert uses[i] in uses;
    }
    forall k | k in PluginsSeen(uses)
      ensures k in Keys(calls)
    {
      var use :| use in uses && NameOf(use).Some? && (use.turn, NameOf(use).value) == k;
      var i :| 0 <= i < |uses| && uses[i] == use;
      assert calls[i] == Some(k) && calls[i] in calls;
    }
  }

  // Until 4096 distinct uses were seen, a use of an app is reported exactly when its connector was
  // not used before in the same turn; a use without a connector always is.
  lemma AppIsReportedOncePerTurn(uses: seq<AppUse>, i: nat)
    requires i < |uses| && |AppsSeen(uses[..i])| < 4096
    ensures Admitted(App, AppCalls(uses), i) <==>
            || uses[i].connector == None
            || forall j :: 0 <= j < i && uses[j].turn == uses[i].turn ==> uses[j].connector != uses[i].connector
  {
    var calls := AppCalls(uses);
    assert calls[..i] == AppCalls(uses[..i]);
    KeysOfApps(uses[..i]);
    BelowCapAgreesWithUnbounded(App, calls, i);
    if j :| 0 <= j < i && uses[j].turn == uses[i].turn && uses[j].connector == uses[i].connector {
      assert calls[..i][j] == calls[i];
    }
  }

  // The same for a plugin, by its own id or its remote one.
  lemma PluginIsReportedOncePerTurn(uses: seq<PluginUse>, i: nat)
    requires i < |uses| && |PluginsSeen(uses[..i])| < 4096
    ensures Admitted(Plugin, PluginCalls(uses), i) <==>
            || NameOf(uses[i]) == None
            || forall j :: 0 <= j < i && uses[j].turn == uses[i].turn ==> NameOf(uses[j]) != NameOf(uses[i])
  {
    var calls := PluginCalls(uses);
    assert calls[..i] == PluginCalls(uses[..i]);
    KeysOfPlugins(uses[..i]);
    BelowCapAgreesWithUnbounded(Plugin, calls, i);
    forall j | 0 <= j <= i
      ensures calls[j] == NamedKey(uses[j])
    {
      PluginKeyMeans(uses[j]);
    }
    if j :| 0 <= j < i && uses[j].turn == uses[i].turn && NameOf(uses[j]) == NameOf(uses[i]) {
      assert calls[..i][j] == calls[i];
    }
  }
}
