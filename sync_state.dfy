/** hooks/useSyncState.ts: the client's record of workout sync progress.
    The hook keeps a `SyncState` and whether the browser is online; its
    actions merge partial updates into the state. An action computes its
    update from the state of the last render (the value its callback closed
    over) and `setSyncState` merges it into the newest state; `SyncTracker`
    keeps both. Two helpers render the last error and the time since the
    last sync. Timestamps are integer milliseconds and the clock is a
    parameter. */
module SyncTracking {
  import opened Wrappers
  import opened Text

  datatype Status = Synced | Syncing | Error | Offline

  datatype SyncState = SyncState(
    status: Status,
    pendingSets: int,
    totalSets: int,
    lastSync: Option<int>,
    lastError: Option<string>,
    retryCount: int,
    isRetrying: bool)

  const Initial := SyncState(Synced, 0, 0, None, None, 0, false)

  /** A `Partial<SyncState>`: the fields an update names. */
  datatype Updates = Updates(
    status: Option<Status>,
    pendingSets: Option<int>,
    totalSets: Option<int>,
    lastSync: Option<Option<int>>,
    lastError: Option<Option<string>>,
    retryCount: Option<int>,
    isRetrying: Option<bool>)

  const NoUpdates := Updates(None, None, None, None, None, None, None)

  /** `{ ...prev, ...updates }`. */
  function Merge(prev: SyncState, u: Updates): SyncState {
    SyncState(
      u.status.GetOr(prev.status),
      u.pendingSets.GetOr(prev.pendingSets),
      u.totalSets.GetOr(prev.totalSets),
      u.lastSync.GetOr(prev.lastSync),
      u.lastError.GetOr(prev.lastError),
      u.retryCount.GetOr(prev.retryCount),
      u.isRetrying.GetOr(prev.isRetrying))
  }

  /** Merging nothing changes nothing, and a second update of the same
      fields overrides the first. */
  lemma MergeLaws(prev: SyncState, u: Updates)
    ensures Merge(prev, NoUpdates) == prev
    ensures Merge(Merge(prev, u), u) == Merge(prev, u)
  {
  }

  function Max0(x: int): (r: int)
    ensures r >= 0 && r >= x && (r == 0 || r == x)
  {
    if x > 0 then x else 0
  }

  // ----------------------------------------------------- the updates

  function StartSyncUpdates(pendingCount: int): Updates {
    NoUpdates.(status := Some(Syncing), isRetrying := Some(false), pendingSets := Some(pendingCount))
  }

  /** `syncSuccess`, computed from the rendered state `seen`. */
  function SuccessUpdates(seen: SyncState, syncedCount: int, now: int): Updates {
    Updates(Some(Synced), Some(Max0(seen.pendingSets - syncedCount)), Some(seen.totalSets + syncedCount),
      Some(Some(now)), Some(None), Some(0), Some(false))
  }

  function ErrorUpdates(seen: SyncState, error: string, willRetry: bool): Updates {
    var retryCount := if willRetry then seen.retryCount + 1 else seen.retryCount;
    NoUpdates.(status := Some(Error), lastError := Some(Some(error)), retryCount := Some(retryCount),
      isRetrying := Some(willRetry))
  }

  function RetryUpdates(): Updates {
    NoUpdates.(status := Some(Syncing), isRetrying := Some(true), lastError := Some(None))
  }

  function ResetUpdates(): Updates {
    NoUpdates.(retryCount := Some(0), isRetrying := Some(false), lastError := Some(None))
  }

  function AddPendingUpdates(seen: SyncState, count: int): Updates {
    NoUpdates.(pendingSets := Some(seen.pendingSets + count))
  }

  // ------------------------------------------- what each action changes

  /** `startSync(p)` sets the status to syncing, pending to p and clears
      `isRetrying`; nothing else changes. */
  lemma StartSyncEffect(prev: SyncState, p: int)
    ensures Merge(prev, StartSyncUpdates(p)) == prev.(status := Syncing, isRetrying := false, pendingSets := p)
  {
  }

  /** `syncSuccess(c)` leaves max(0, pending - c) pending, never negative,
      adds c to the total, records the time and clears the error and the
      retries. */
  lemma SyncSuccessEffect(prev: SyncState, seen: SyncState, c: int, now: int)
    ensures var s := Merge(prev, SuccessUpdates(seen, c, now));
      && s.status == Synced
      && s.pendingSets >= 0
      && (s.pendingSets == 0 || s.pendingSets == seen.pendingSets - c)
      && s.pendingSets >= seen.pendingSets - c
      && s.totalSets == seen.totalSets + c
      && s.lastSync == Some(now) && s.lastError == None
      && s.retryCount == 0 && !s.isRetrying
  {
  }

  /** `syncError(e, w)` counts a retry exactly when w, sets `isRetrying` to
      w, and keeps the counts of sets. */
  lemma SyncErrorEffect(prev: SyncState, seen: SyncState, e: string, w: bool)
    ensures var s := Merge(prev, ErrorUpdates(seen, e, w));
      && s == prev.(status := Error, lastError := Some(e), retryCount := s.retryCount, isRetrying := w)
      && (s.retryCount == seen.retryCount + 1 <==> w)
      && (!w ==> s.retryCount == seen.retryCount)
  {
  }

  /** `startRetry` sets syncing, `isRetrying` and clears the error; the
      retry count is left alone. */
  lemma StartRetryEffect(prev: SyncState)
    ensures Merge(prev, RetryUpdates()) == prev.(status := Syncing, isRetrying := true, lastError := None)
  {
  }

  /** `resetRetries` leaves the status and the set counts alone. */
  lemma ResetRetriesEffect(prev: SyncState)
    ensures Merge(prev, ResetUpdates()) == prev.(retryCount := 0, isRetrying := false, lastError := None)
  {
  }

  /** `addPendingSets(c)` adds c to the pending count it saw. */
  lemma AddPendingEffect(prev: SyncState, seen: SyncState, c: int)
    ensures Merge(prev, AddPendingUpdates(seen, c)) == prev.(pendingSets := seen.pendingSets + c)
  {
  }

  /** Two `addPendingSets` calls between renders see the same pending count,
      so the second overrides the first instead of adding to it. */
  lemma AddPendingTwiceBeforeRender(s: SyncState, a: int, b: int)
    ensures Merge(Merge(s, AddPendingUpdates(s, a)), AddPendingUpdates(s, b)).pendingSets == s.pendingSets + b
  {
  }

  // ------------------------------------------------------ derived status

  /** `currentStatus`. */
  function CurrentStatus(isOnline: bool, s: SyncState): (r: Status)
    ensures !isOnline <==> r == Offline
    ensures isOnline ==> (r == Syncing <==> s.isRetrying || s.status == Syncing)
    ensures r == Error <==> isOnline && !s.isRetrying && s.status == Error
    ensures r == Synced <==> isOnline && !s.isRetrying && s.status != Syncing && s.status != Error
  {
    if isOnline then
      (if s.isRetrying || s.status == Syncing then Syncing
       else if s.status == Error then Error
       else Synced)
    else Offline
  }

  // ---------------------------------------------------- display error

  datatype Entry = Entry(key: string, message: string)

  /** `errorMap` in the order `Object.entries` lists it: the keys that are
      canonical array indices ("401" to "500") first, in ascending order,
      then the others in the order written. */
  const ErrorTable: seq<Entry> := [
    Entry("401", "Session expired - please refresh"),
    Entry("403", "Permission denied"),
    Entry("404", "Workout not found"),
    Entry("422", "Invalid data - please check entries"),
    Entry("500", "Server error - will retry automatically"),
    Entry("NetworkError", "No internet connection"),
    Entry("fetch failed", "Network error - check connection"),
    Entry("Timeout", "Server took too long to respond"),
    Entry("TypeError: Failed to fetch", "Connection failed"),
    Entry("QuotaExceeded", "Storage limit reached"),
    Entry("AbortError", "Request was cancelled")]

  /** An object literal holds each key once, so the first entry with a key
      is the only one. */
  lemma ErrorTableKeysDistinct()
    ensures forall i, j :: 0 <= i < j < |ErrorTable| ==> ErrorTable[i].key != ErrorTable[j].key
  {
  }

  /** The position of the first entry at or after i whose key occurs in
      `e`. */
  function FirstMatchFrom(table: seq<Entry>, e: string, i: nat): (r: Option<nat>)
    requires i <= |table|
    decreases |table| - i
    ensures r.Some? ==> i <= r.value < |table| && Contains(e, table[r.value].key)
    ensures r.Some? ==> forall j :: i <= j < r.value ==> !Contains(e, table[j].key)
    ensures r.None? ==> forall j :: i <= j < |table| ==> !Contains(e, table[j].key)
  {
    if i == |table| then None
    else if Contains(e, table[i].key) then Some(i)
    else FirstMatchFrom(table, e, i + 1)
  }

  function FirstMatch(table: seq<Entry>, e: string): Option<nat> {
    FirstMatchFrom(table, e, 0)
  }

  /** `errorMap[key]`. */
  function Lookup(table: seq<Entry>, key: string): (r: Option<string>)
    ensures r.Some? <==> exists j :: 0 <= j < |table| && table[j].key == key
    ensures forall j :: FirstKeyAt(table, key, j) ==> r == Some(table[j].message)
  {
    if table == [] then None
    else if table[0].key == key then Some(table[0].message)
    else
      var tail := table[1..];
      var r := Lookup(tail, key);
      assert forall j :: 1 <= j < |table| ==> table[j] == tail[j - 1];
      assert forall j :: FirstKeyAt(table, key, j) ==> r == Some(table[j].message) by {
        forall j | FirstKeyAt(table, key, j) ensures r == Some(table[j].message) {
          assert FirstKeyAt(tail, key, j - 1) by {
            forall k | 0 <= k < j - 1 ensures tail[k].key != key {
              assert tail[k] == table[k + 1];
            }
          }
        }
      }
      r
  }

  /** Entry j has the key and no earlier entry does. */
  predicate FirstKeyAt(table: seq<Entry>, key: string, j: int) {
    0 <= j < |table| && table[j].key == key && forall k :: 0 <= k < j ==> table[k].key != key
  }

  predicate DigitsAt(s: string, i: int) {
    0 <= i && i + 3 <= |s| && IsDigit(s[i]) && IsDigit(s[i + 1]) && IsDigit(s[i + 2])
  }

  /** The leftmost run of three digits at or after i. */
  function FindDigits(s: string, i: nat): (r: Option<nat>)
    decreases |s| - i
    ensures r.Some? ==> i <= r.value && DigitsAt(s, r.value)
    ensures r.Some? ==> forall k :: i <= k < r.value ==> !DigitsAt(s, k)
    ensures r.None? ==> forall k :: i <= k ==> !DigitsAt(s, k)
  {
    if i + 3 > |s| then None
    else if DigitsAt(s, i) then Some(i)
    else FindDigits(s, i + 1)
  }

  /** `s.match(/(\d{3})/)`: the first three consecutive digits, if any. */
  function StatusCode(s: string): (r: Option<string>)
    ensures r.Some? ==> |r.value| == 3 && AllDigits(r.value) && Contains(s, r.value)
    ensures r.None? <==> forall k :: !DigitsAt(s, k)
    ensures forall i ::
      (DigitsAt(s, i) && forall k :: 0 <= k < i ==> !DigitsAt(s, k)) ==> r == Some(s[i..i + 3])
  {
    match FindDigits(s, 0)
    case None => None
    case Some(i) =>
      assert OccursAt(s, s[i..i + 3], i);
      Some(s[i..i + 3])
  }

  const Ellipsis := "..."

  /** The generic fallback: longer than 50 characters is cut to 50 and
      marked. */
  function Truncate(e: string): (r: string)
    ensures |e| <= 50 ==> r == e
    ensures |e| > 50 ==> |r| == 53 && r[..50] == e[..50] && r[50..] == Ellipsis
  {
    if |e| > 50 then e[..50] + Ellipsis else e
  }

  /** `getDisplayError` over an error table. */
  function DisplayErrorWith(table: seq<Entry>, lastError: Option<string>): Option<string> {
    if lastError.None? || lastError.value == "" then None
    else
      var e := lastError.value;
      match FirstMatch(table, e)
      case Some(i) => Some(table[i].message)
      case None =>
        match StatusCode(e)
        case Some(code) => Some(Lookup(table, code).GetOr("Server error (" + code + ")"))
        case None => Some(Truncate(e))
  }

  function DisplayError(lastError: Option<string>): Option<string> {
    DisplayErrorWith(ErrorTable, lastError)
  }

  /** The loop over the table with its early return, then the code, then
      the fallback. */
  method DisplayErrorOf(table: seq<Entry>, lastError: Option<string>) returns (r: Option<string>)
    ensures r == DisplayErrorWith(table, lastError)
  {
    if lastError.None? || lastError.value == "" {
      return None;
    }
    var e := lastError.value;
    for i := 0 to |table|
      invariant forall j :: 0 <= j < i ==> !Contains(e, table[j].key)
    {
      if Contains(e, table[i].key) {
        return Some(table[i].message);
      }
    }
    var code := StatusCode(e);
    if code.Some? {
      var mapped := Lookup(table, code.value);
      if mapped.Some? {
        return mapped;
      }
      return Some("Server error (" + code.value + ")");
    }
    if |e| > 50 {
      return Some(e[..50] + Ellipsis);
    }
    return Some(e);
  }

  /** No message exactly when there is no error text. */
  lemma DisplayErrorNone(lastError: Option<string>)
    ensures DisplayError(lastError).None? <==> lastError.None? || lastError == Some("")
  {
  }

  /** The first table entry (in enumeration order) whose key occurs in the
      error decides the message. */
  lemma DisplayErrorKnown(e: string, i: nat)
    requires e != ""
    requires i < |ErrorTable| && Contains(e, ErrorTable[i].key)
    requires forall j :: 0 <= j < i ==> !Contains(e, ErrorTable[j].key)
    ensures DisplayError(Some(e)) == Some(ErrorTable[i].message)
  {
    FirstMatchWins(ErrorTable, e, i);
  }

  lemma FirstMatchWins(table: seq<Entry>, e: string, i: nat)
    requires e != ""
    requires i < |table| && Contains(e, table[i].key)
    requires forall j :: 0 <= j < i ==> !Contains(e, table[j].key)
    ensures FirstMatch(table, e) == Some(i)
    ensures DisplayErrorWith(table, Some(e)) == Some(table[i].message)
  {
  }

  /** A numeric key is found before every textual one: an error that
      mentions "500" but no lower code reads as the server error even if it
      also mentions, say, "NetworkError". */
  lemma NumericKeysFirst(e: string)
    requires Contains(e, "500")
    requires !Contains(e, "401") && !Contains(e, "403") && !Contains(e, "404") && !Contains(e, "422")
    ensures DisplayError(Some(e)) == Some("Server error - will retry automatically")
  {
    var k :| OccursAt(e, "500", k);
    DisplayErrorKnown(e, 4);
  }

  /** When no key occurs, the code lookup can never hit (a code equal to a
      key would have matched that key), so a three-digit code always reads
      "Server error (NNN)". */
  lemma CodeLookupMisses(e: string, code: string)
    requires FirstMatch(ErrorTable, e).None? && StatusCode(e) == Some(code)
    ensures Lookup(ErrorTable, code).None?
    ensures DisplayError(Some(e)) == Some("Server error (" + code + ")")
  {
    CodeNotAKey(ErrorTable, e, code);
  }

  /** A text that occurs in an error no key of the table occurs in is not
      a key of the table. */
  lemma CodeNotAKey(table: seq<Entry>, e: string, code: string)
    requires FirstMatch(table, e).None? && Contains(e, code)
    ensures Lookup(table, code).None?
  {
    forall j | 0 <= j < |table|
      ensures table[j].key != code
    {
      assert !Contains(e, table[j].key);
    }
  }

  /** Without a key or a code the text itself is shown, cut to 50
      characters plus "..." when longer. */
  lemma DisplayErrorFallback(e: string)
    requires e != "" && FirstMatch(ErrorTable, e).None? && StatusCode(e).None?
    ensures DisplayError(Some(e)) == Some(Truncate(e))
    ensures |DisplayError(Some(e)).value| <= 53
  {
  }

  // ---------------------------------------------------- time since sync

  /** JavaScript's `%`, whose result takes the sign of the dividend. */
  function JsRem(a: int, b: int): (r: int)
    requires b > 0
    ensures a >= 0 ==> 0 <= r < b
    ensures a < 0 ==> -b < r <= 0
  {
    if a >= 0 then a % b else -((-a) % b)
  }

  /** JavaScript's `Math.trunc(a / b)`: the quotient rounded toward zero. */
  function TruncQuot(a: int, b: int): int
    requires b > 0
  {
    if a >= 0 then a / b else -((-a) / b)
  }

  /** The remainder completes the truncated division: `a == b * q + r`
      with q rounded toward zero, as ECMAScript defines `%`. */
  lemma JsRemDivision(a: int, b: int)
    requires b > 0
    ensures a == b * TruncQuot(a, b) + JsRem(a, b)
    ensures a >= 0 ==> TruncQuot(a, b) >= 0
    ensures a < 0 ==> TruncQuot(a, b) <= 0
  {
    if a >= 0 {
      DivisionOf(a, b);
    } else {
      DivisionOf(-a, b);
      var q := (-a) / b;
      assert b * (-q) == -(b * q);
    }
  }

  /** Euclidean division of a natural number by a positive one. */
  lemma DivisionOf(n: int, b: int)
    requires n >= 0 && b > 0
    ensures n == b * (n / b) + n % b && n / b >= 0
  {
  }

  /** `getTimeSinceLastSync`. `Math.floor(x / d)` for a positive d is
      Dafny's integer division. */
  function TimeSince(lastSync: Option<int>, now: int): Option<string> {
    if lastSync.None? then None
    else
      var diff := now - lastSync.value;
      var minutes := diff / 60000;
      var seconds := JsRem(diff, 60000) / 1000;
      if minutes > 0 then Some(IntToString(minutes) + "m ago")
      else if seconds > 30 then Some(IntToString(seconds) + "s ago")
      else Some("just now")
  }

  /** A minute or more reads as whole minutes. */
  lemma TimeSinceMinutes(last: int, now: int)
    requires now - last >= 60000
    ensures TimeSince(Some(last), now) == Some(NatToString((now - last) / 60000) + "m ago")
  {
  }

  /** From 31 seconds up to, not including, a minute reads as whole seconds,
      31 to 59. */
  lemma TimeSinceSeconds(last: int, now: int)
    requires 31000 <= now - last < 60000
    ensures 31 <= (now - last) / 1000 <= 59
    ensures TimeSince(Some(last), now) == Some(NatToString((now - last) / 1000) + "s ago")
  {
    var diff := now - last;
    assert diff / 60000 == 0;
    assert JsRem(diff, 60000) == diff;
  }

  /** Less than 31 seconds, and any time in the future, reads "just now". */
  lemma TimeSinceJustNow(last: int, now: int)
    requires now - last < 31000
    ensures TimeSince(Some(last), now) == Some("just now")
  {
    var diff := now - last;
    if diff >= 0 {
      assert diff / 60000 == 0;
      assert JsRem(diff, 60000) == diff;
    } else {
      assert diff / 60000 < 0;
      assert JsRem(diff, 60000) / 1000 <= 0;
    }
  }

  // ----------------------------------------------------------- the hook

  /** The hook's state: `state` is the newest value `setSyncState` holds,
      `rendered` the value of the last render, which the action callbacks
      read. */
  class SyncTracker {
    var state: SyncState
    var rendered: SyncState
    var isOnline: bool

    /** The initial state; `online` is `navigator.onLine` (true when
        rendered on the server). */
    constructor(online: bool)
      ensures state == Initial && rendered == Initial && isOnline == online
    {
      state := Initial;
      rendered := Initial;
      isOnline := online;
    }

    /** A re-render: callbacks now see the newest state. */
    method Render()
      modifies this
      ensures rendered == old(state) && state == old(state) && isOnline == old(isOnline)
    {
      rendered := state;
    }

    /** The `online` and `offline` window events. */
    method SetOnline(online: bool)
      modifies this
      ensures isOnline == online && state == old(state) && rendered == old(rendered)
    {
      isOnline := online;
    }

    /** `updateSyncState`: a partial merge into the newest state. */
    method UpdateSyncState(u: Updates)
      modifies this
      ensures state == Merge(old(state), u)
      ensures rendered == old(rendered) && isOnline == old(isOnline)
    {
      state := Merge(state, u);
    }

    method StartSync(pendingCount: int)
      modifies this
      ensures state == Merge(old(state), StartSyncUpdates(pendingCount))
      ensures rendered == old(rendered) && isOnline == old(isOnline)
    {
      UpdateSyncState(StartSyncUpdates(pendingCount));
    }

    method SyncSuccess(syncedCount: int, now: int)
      modifies this
      ensures state == Merge(old(state), SuccessUpdates(old(rendered), syncedCount, now))
      ensures state.pendingSets >= 0
      ensures rendered == old(rendered) && isOnline == old(isOnline)
    {
      UpdateSyncState(SuccessUpdates(rendered, syncedCount, now));
    }

    method SyncError(error: string, willRetry: bool)
      modifies this
      ensures state == Merge(old(state), ErrorUpdates(old(rendered), error, willRetry))
      ensures rendered == old(rendered) && isOnline == old(isOnline)
    {
      UpdateSyncState(ErrorUpdates(rendered, error, willRetry));
    }

    method StartRetry()
      modifies this
      ensures state == Merge(old(state), RetryUpdates())
      ensures rendered == old(rendered) && isOnline == old(isOnline)
    {
      UpdateSyncState(RetryUpdates());
    }

    method ResetRetries()
      modifies this
      ensures state == Merge(old(state), ResetUpdates())
      ensures rendered == old(rendered) && isOnline == old(isOnline)
    {
      UpdateSyncState(ResetUpdates());
    }

    method AddPendingSets(count: int)
      modifies this
      ensures state == Merge(old(state), AddPendingUpdates(old(rendered), count))
      ensures rendered == old(rendered) && isOnline == old(isOnline)
    {
      UpdateSyncState(AddPendingUpdates(rendered, count));
    }

    /** The state the hook returns: the rendered state with the derived
        status. */
    function Snapshot(): SyncState
      reads this
    {
      rendered.(status := CurrentStatus(isOnline, rendered))
    }

    method GetDisplayError() returns (r: Option<string>)
      ensures r == DisplayError(rendered.lastError)
    {
      r := DisplayErrorOf(ErrorTable, rendered.lastError);
    }

    function GetTimeSinceLastSync(now: int): Option<string>
      reads this
    {
      TimeSince(rendered.lastSync, now)
    }
  }
}
