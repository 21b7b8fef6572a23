/** Writing each session's trajectories into the key-value store, and reading one score per session
    back out of a listing of that store. */
module TrajectoryStore {
  import opened Sequences

  // ----- decimal numbers -----

  function Digit(d: nat): char
    requires d < 10
  {
    '0' + d as char
  }

  function Decimal(n: nat): (s: string)
    ensures s != ""
  {
    if n < 10 then [Digit(n)] else Decimal(n / 10) + [Digit(n % 10)]
  }

  function ParseDigits(s: string): Option<nat> {
    if s == "" then None
    else
      var last := s[|s| - 1];
      if !('0' <= last <= '9') then None
      else
        var d := (last - '0') as nat;
        if |s| == 1 then Some(d)
        else if ParseDigits(s[..|s| - 1]).None? then None
        else Some(10 * ParseDigits(s[..|s| - 1]).value + d)
  }

  /** Python's `int` on a text of digits with an optional sign. */
  function ParseInt(s: string): Option<int> {
    if s != "" && (s[0] == '-' || s[0] == '+') then
      var rest := ParseDigits(s[1..]);
      if rest.None? then None
      else
        var magnitude: int := rest.value;
        Some(if s[0] == '-' then -magnitude else magnitude)
    else
      var all := ParseDigits(s);
      if all.None? then None else Some(all.value)
  }

  lemma {:induction false} DecimalParses(n: nat)
    ensures ParseDigits(Decimal(n)) == Some(n)
    ensures forall c :: c in Decimal(n) ==> '0' <= c <= '9'
  {
    if n < 10 {
    } else {
      DecimalParses(n / 10);
      assert Decimal(n)[..|Decimal(n)| - 1] == Decimal(n / 10);
    }
  }

  lemma DecimalIsInt(n: nat)
    ensures ParseInt(Decimal(n)) == Some(n) && '_' !in Decimal(n)
  {
    DecimalParses(n);
    assert Decimal(n)[0] in Decimal(n);
  }

  ghost predicate Digits(s: string) {
    s != "" && forall i :: 0 <= i < |s| ==> '0' <= s[i] <= '9'
  }

  lemma {:induction false} OnlyDigitsParse(s: string)
    ensures ParseDigits(s).Some? <==> Digits(s)
  {
    if |s| > 1 {
      OnlyDigitsParse(s[..|s| - 1]);
    }
  }

  /** A sign may stand before the digits, and nothing else is a number. */
  lemma SignedParses(n: nat, s: string)
    ensures ParseInt("-" + Decimal(n)).Some? && ParseInt("-" + Decimal(n)).value == 0 - n
    ensures ParseInt("+" + Decimal(n)) == Some(n)
    ensures ParseInt(s).Some? <==> Digits(if s != "" && (s[0] == '-' || s[0] == '+') then s[1..] else s)
  {
    DecimalParses(n);
    assert ("-" + Decimal(n))[1..] == Decimal(n) && ("+" + Decimal(n))[1..] == Decimal(n);
    OnlyDigitsParse(if s != "" && (s[0] == '-' || s[0] == '+') then s[1..] else s);
  }

  // ----- keys -----

  function Key(uid: string, session: nat, index: nat): string {
    uid + "_" + Decimal(session) + "_" + Decimal(index)
  }

  /** Python's `rsplit("_", 1)`, if there is an underscore. */
  function SplitLast(s: string): Option<(string, string)> {
    if s == "" then None
    else if s[|s| - 1] == '_' then Some((s[..|s| - 1], ""))
    else
      var init := SplitLast(s[..|s| - 1]);
      if init.None? then None else Some((init.value.0, init.value.1 + [s[|s| - 1]]))
  }

  datatype Parts = Parts(uid: string, session: string, index: string)

  /** Python's `rsplit("_", 2)`, if that gives three parts. */
  function RSplit(key: string): Option<Parts> {
    var last := SplitLast(key);
    if last.None? then None
    else
      var before := SplitLast(last.value.0);
      if before.None? then None else Some(Parts(before.value.0, before.value.1, last.value.1))
  }

  lemma {:induction false} SplitLastAt(a: string, b: string)
    requires '_' !in b
    ensures SplitLast(a + "_" + b) == Some((a, b))
    decreases |b|
  {
    var s := a + "_" + b;
    if b == "" {
      assert s[..|s| - 1] == a;
    } else {
      assert s[..|s| - 1] == a + "_" + b[..|b| - 1];
      assert b == b[..|b| - 1] + [b[|b| - 1]];
      SplitLastAt(a, b[..|b| - 1]);
    }
  }

  /** A written key splits back into its uid, whatever that contains, and its two numbers. */
  lemma KeySplits(uid: string, session: nat, index: nat)
    ensures RSplit(Key(uid, session, index)) == Some(Parts(uid, Decimal(session), Decimal(index)))
  {
    DecimalIsInt(session);
    DecimalIsInt(index);
    SplitLastAt(uid + "_" + Decimal(session), Decimal(index));
    SplitLastAt(uid, Decimal(session));
  }

  lemma KeysAreInjective(uid: string, session: nat, index: nat, uid': string, session': nat, index': nat)
    requires Key(uid, session, index) == Key(uid', session', index')
    ensures uid == uid' && session == session' && index == index'
  {
    KeySplits(uid, session, index);
    KeySplits(uid', session', index');
    DecimalIsInt(session);
    DecimalIsInt(session');
    DecimalIsInt(index);
    DecimalIsInt(index');
  }

  lemma {:induction false} SplitLastNone(s: string)
    ensures SplitLast(s).None? <==> '_' !in s
    ensures SplitLast(s).Some? ==> s == SplitLast(s).value.0 + "_" + SplitLast(s).value.1
  {
    if s != "" {
      SplitLastNone(s[..|s| - 1]);
      assert s == s[..|s| - 1] + [s[|s| - 1]];
    }
  }

  // ----- scores -----

  datatype Trajectory = Trajectory(responses: seq<int>, reward: Option<real>)

  function Zeros(n: nat): (z: seq<real>)
    ensures |z| == n
  {
    seq(n, _ => 0.0)
  }

  /** One score per response token: zero, but the reward on the last one. */
  function RmScores(t: Trajectory): seq<real> {
    var zeros := Zeros(|t.responses|);
    if t.reward.Some? && |t.responses| > 0 then zeros[|zeros| - 1 := t.reward.value] else zeros
  }

  function Total(s: seq<real>): real {
    if s == [] then 0.0 else s[0] + Total(s[1..])
  }

  function Score(t: Trajectory): real {
    if t.reward.Some? && t.responses != [] then t.reward.value else 0.0
  }

  lemma {:induction false} ZerosButLast(n: nat, x: real)
    ensures Total(Zeros(n)) == 0.0
    ensures n > 0 ==> Total(Zeros(n)[n - 1 := x]) == x
  {
    if n > 0 {
      ZerosButLast(n - 1, x);
      assert Zeros(n)[1..] == Zeros(n - 1);
      if n == 1 {
        assert Zeros(1)[0 := x][1..] == [];
      } else {
        assert Zeros(n)[n - 1 := x][1..] == Zeros(n - 1)[n - 2 := x];
      }
    }
  }

  /** There is one score per response token, only the last can be other than zero, and summing them
      gives the reward back. */
  lemma ScoreIsTotal(t: Trajectory)
    ensures |RmScores(t)| == |t.responses|
    ensures forall i :: 0 <= i < |t.responses| - 1 ==> RmScores(t)[i] == 0.0
    ensures Total(RmScores(t)) == Score(t)
  {
    ZerosButLast(|t.responses|, if t.reward.Some? then t.reward.value else 0.0);
  }

  // ----- the writer -----

  datatype Entry = Entry(status: string, rmScores: seq<real>)

  type Store = map<string, Entry>

  /** A rollout writes all trajectories of a session at once and sets status markers under the uid. */
  datatype Put = Session(uid: string, session: nat, trajectories: seq<Trajectory>) | Marker(uid: string, status: string)

  function EntryOf(t: Trajectory): Entry {
    Entry("success", RmScores(t))
  }

  function PutAll(store: Store, uid: string, session: nat, trajectories: seq<Trajectory>): Store {
    if trajectories == [] then store
    else
      var last := |trajectories| - 1;
      PutAll(store, uid, session, trajectories[..last])[Key(uid, session, last) := EntryOf(trajectories[last])]
  }

  function Stored(puts: seq<Put>): Store {
    if puts == [] then map[]
    else
      var before := Stored(puts[..|puts| - 1]);
      match puts[|puts| - 1]
      case Session(uid, session, trajectories) => PutAll(before, uid, session, trajectories)
      case Marker(uid, status) => before[uid := Entry(status, [])]
  }

  method WriteSession(store: Store, uid: string, session: nat, trajectories: seq<Trajectory>) returns (after: Store)
    ensures after == PutAll(store, uid, session, trajectories)
  {
    var keys: seq<string> := [];
    var entries: seq<Entry> := [];
    for i := 0 to |trajectories|
      invariant |keys| == |entries| == i
      invariant forall j :: 0 <= j < i ==> keys[j] == Key(uid, session, j) && entries[j] == EntryOf(trajectories[j])
    {
      keys := keys + [Key(uid, session, i)];
      entries := entries + [EntryOf(trajectories[i])];
    }
    after := store;
    for i := 0 to |keys|
      invariant after == PutAll(store, uid, session, trajectories[..i])
    {
      assert trajectories[..i + 1][..i] == trajectories[..i];
      after := after[keys[i] := entries[i]];
    }
    assert trajectories[..|trajectories|] == trajectories;
  }

  ghost predicate Foreign(key: string, uid: string, session: nat, count: nat) {
    forall i: nat :: i < count ==> key != Key(uid, session, i)
  }

  /** A batch leaves every key alone that is not one of its own. */
  lemma {:induction false} PutAllKeeps(store: Store, uid: string, session: nat, trajectories: seq<Trajectory>,
                                       key: string)
    requires Foreign(key, uid, session, |trajectories|)
    ensures key in PutAll(store, uid, session, trajectories) <==> key in store
    ensures key in store ==> PutAll(store, uid, session, trajectories)[key] == store[key]
  {
    if trajectories != [] {
      PutAllKeeps(store, uid, session, trajectories[..|trajectories| - 1], key);
    }
  }

  /** A batch stores each trajectory under its own key. */
  lemma {:induction false} PutAllStores(store: Store, uid: string, session: nat, trajectories: seq<Trajectory>, i: nat)
    requires i < |trajectories|
    ensures Key(uid, session, i) in PutAll(store, uid, session, trajectories)
    ensures PutAll(store, uid, session, trajectories)[Key(uid, session, i)] == EntryOf(trajectories[i])
  {
    var last := |trajectories| - 1;
    if i < last {
      PutAllStores(store, uid, session, trajectories[..last], i);
      if Key(uid, session, i) == Key(uid, session, last) {
        KeysAreInjective(uid, session, i, uid, session, last);
      }
    }
  }

  /** Each session is written once, and no status marker has the key of a record. */
  ghost predicate WellWritten(puts: seq<Put>) {
    && (forall j, k :: 0 <= j < k < |puts| && puts[j].Session? && puts[k].Session? ==>
          puts[j].uid != puts[k].uid || puts[j].session != puts[k].session)
    && (forall j :: 0 <= j < |puts| && puts[j].Marker? ==> puts[j].status != "success")
    && (forall j, k, i: nat :: 0 <= j < |puts| && 0 <= k < |puts| && puts[j].Marker? && puts[k].Session? ==>
          puts[j].uid != Key(puts[k].uid, puts[k].session, i))
  }

  lemma PlainUidIsNoKey(marker: string, uid: string, session: nat, index: nat)
    requires '_' !in marker
    ensures marker != Key(uid, session, index)
  {
    var key := Key(uid, session, index);
    assert key[|uid|] == '_';
    assert '_' in key;
  }

  lemma {:induction false} RecordIsStored(puts: seq<Put>, k: nat, i: nat)
    requires WellWritten(puts) && k < |puts| && puts[k].Session? && i < |puts[k].trajectories|
    ensures var key := Key(puts[k].uid, puts[k].session, i);
            key in Stored(puts) && Stored(puts)[key] == EntryOf(puts[k].trajectories[i])
  {
    var last := |puts| - 1;
    var key := Key(puts[k].uid, puts[k].session, i);
    var put := puts[last];
    if k == last {
      PutAllStores(Stored(puts[..last]), put.uid, put.session, put.trajectories, i);
    } else {
      RecordIsStored(puts[..last], k, i);
      if put.Session? {
        forall j: nat | j < |put.trajectories| ensures key != Key(put.uid, put.session, j) {
          if key == Key(put.uid, put.session, j) {
            KeysAreInjective(puts[k].uid, puts[k].session, i, put.uid, put.session, j);
          }
        }
        PutAllKeeps(Stored(puts[..last]), put.uid, put.session, put.trajectories, key);
      }
    }
  }

  /** Nothing else is stored with status "success". */
  lemma {:induction false} OnlyRecordsSucceed(puts: seq<Put>, key: string) returns (k: nat, i: nat)
    requires WellWritten(puts) && key in Stored(puts) && Stored(puts)[key].status == "success"
    ensures k < |puts| && puts[k].Session? && i < |puts[k].trajectories|
    ensures key == Key(puts[k].uid, puts[k].session, i)
  {
    var last := |puts| - 1;
    var put := puts[last];
    if put.Session? {
      if j: nat :| j < |put.trajectories| && key == Key(put.uid, put.session, j) {
        return last, j;
      }
      PutAllKeeps(Stored(puts[..last]), put.uid, put.session, put.trajectories, key);
    }
    k, i := OnlyRecordsSucceed(puts[..last], key);
  }

  // ----- the reader -----

  type SessionKey = (string, string)

  predicate TextLess(a: string, b: string) {
    b != "" && (a == "" || a[0] < b[0] || (a[0] == b[0] && TextLess(a[1..], b[1..])))
  }

  /** Texts are compared at the first character that differs; a proper prefix comes first. */
  lemma {:induction false} TextLessAtFirstDifference(a: string, b: string, k: nat)
    requires k <= |a| && k <= |b| && a[..k] == b[..k]
    ensures k < |a| && k < |b| && a[k] < b[k] ==> TextLess(a, b) && !TextLess(b, a)
    ensures k == |a| < |b| ==> TextLess(a, b) && !TextLess(b, a)
    decreases k
  {
    if k > 0 {
      assert a[0] == a[..k][0] == b[0];
      assert a[1..][..k - 1] == a[..k][1..] && b[1..][..k - 1] == b[..k][1..];
      TextLessAtFirstDifference(a[1..], b[1..], k - 1);
    }
  }

  predicate Less(p: SessionKey, q: SessionKey) {
    TextLess(p.0, q.0) || (p.0 == q.0 && TextLess(p.1, q.1))
  }

  lemma {:induction false} TextLessTransitive(a: string, b: string, c: string)
    requires TextLess(a, b) && TextLess(b, c)
    ensures TextLess(a, c)
  {
    if a != "" && a[0] == b[0] && b[0] == c[0] {
      TextLessTransitive(a[1..], b[1..], c[1..]);
    }
  }

  lemma {:induction false} TextLessTotal(a: string, b: string)
    ensures a == b || TextLess(a, b) || TextLess(b, a)
    ensures !(TextLess(a, b) && TextLess(b, a)) && !TextLess(a, a)
    decreases |a|
  {
    if a != "" {
      TextLessIrreflexive(a);
      if b != "" && a[0] == b[0] {
        TextLessTotal(a[1..], b[1..]);
        assert a == [a[0]] + a[1..] && b == [b[0]] + b[1..];
      }
    }
  }

  lemma {:induction false} TextLessIrreflexive(a: string)
    ensures !TextLess(a, a)
  {
    if a != "" {
      TextLessIrreflexive(a[1..]);
    }
  }

  lemma LessTransitive(p: SessionKey, q: SessionKey, r: SessionKey)
    requires Less(p, q) && Less(q, r)
    ensures Less(p, r)
  {
    if TextLess(p.0, q.0) && TextLess(q.0, r.0) {
      TextLessTransitive(p.0, q.0, r.0);
    } else if p.0 == q.0 == r.0 {
      TextLessTotal(p.0, p.0);
      TextLessTransitive(p.1, q.1, r.1);
    }
  }

  lemma LessTotal(p: SessionKey, q: SessionKey)
    ensures p == q || Less(p, q) || Less(q, p)
    ensures !(Less(p, q) && Less(q, p)) && !Less(p, p)
  {
    TextLessTotal(p.0, q.0);
    TextLessTotal(p.1, q.1);
    TextLessTotal(p.0, p.0);
    TextLessTotal(p.1, p.1);
  }

  ghost predicate Sorted(s: seq<SessionKey>) {
    forall i, j :: 0 <= i < j < |s| ==> Less(s[i], s[j])
  }

  function InsertSorted(p: SessionKey, s: seq<SessionKey>): seq<SessionKey> {
    if s == [] || Less(p, s[0]) then [p] + s else [s[0]] + InsertSorted(p, s[1..])
  }

  lemma {:induction false} InsertKeeps(p: SessionKey, s: seq<SessionKey>)
    ensures forall q :: q in InsertSorted(p, s) <==> q == p || q in s
  {
    if s != [] && !Less(p, s[0]) {
      InsertKeeps(p, s[1..]);
      assert s == [s[0]] + s[1..];
    }
  }

  lemma {:induction false} InsertSorts(p: SessionKey, s: seq<SessionKey>)
    requires Sorted(s) && p !in s
    ensures Sorted(InsertSorted(p, s))
  {
    if s == [] {
    } else if Less(p, s[0]) {
      forall i | 0 <= i < |s| ensures Less(p, s[i]) {
        if i > 0 {
          LessTransitive(p, s[0], s[i]);
        }
      }
    } else {
      LessTotal(p, s[0]);
      InsertSorts(p, s[1..]);
      InsertKeeps(p, s[1..]);
      var rest := InsertSorted(p, s[1..]);
      forall i | 0 <= i < |rest| ensures Less(s[0], rest[i]) {
        assert rest[i] in rest;
      }
    }
  }

  /** Two sorted lists of the same elements are equal. */
  lemma {:induction false} SortedUnique(a: seq<SessionKey>, b: seq<SessionKey>)
    requires Sorted(a) && Sorted(b) && forall p :: p in a <==> p in b
    ensures a == b
  {
    if a == [] {
      assert forall i :: 0 <= i < |b| ==> b[i] in b;
    } else {
      assert a[0] in b;
      assert b != [] && b[0] in a;
      LessTotal(a[0], b[0]);
      assert a[0] == b[0];
      forall p ensures p in a[1..] <==> p in b[1..] {
        assert p in a <==> p == a[0] || p in a[1..];
        assert p in b <==> p == b[0] || p in b[1..];
        LessTotal(a[0], a[0]);
        if p == a[0] {
          NotInRest(a);
          NotInRest(b);
        }
      }
      SortedUnique(a[1..], b[1..]);
    }
  }

  lemma NotInRest(a: seq<SessionKey>)
    requires a != [] && Sorted(a)
    ensures a[0] !in a[1..]
  {
    forall i | 0 <= i < |a[1..]| ensures a[1..][i] != a[0] {
      assert Less(a[0], a[i + 1]);
      LessTotal(a[0], a[0]);
    }
  }

  datatype Read = Read(
    sessions: seq<SessionKey>, keys: seq<string>, scores: seq<real>, status: map<string, string>)

  /** A successful record of one of the asked uids. */
  predicate Accepted(uids: set<string>, store: Store, key: string) {
    && key in store && RSplit(key).Some? && RSplit(key).value.uid in uids
    && store[key].status == "success" && ParseInt(RSplit(key).value.index).Some?
  }

  function SessionOf(key: string): SessionKey
    requires RSplit(key).Some?
  {
    (RSplit(key).value.uid, RSplit(key).value.session)
  }

  function IndexOf(key: string): int
    requires RSplit(key).Some? && ParseInt(RSplit(key).value.index).Some?
  {
    ParseInt(RSplit(key).value.index).value
  }

  /** The accepted key with the highest number among the `seen` ones of its session. */
  ghost predicate Highest(uids: set<string>, store: Store, seen: seq<string>, p: SessionKey, key: string) {
    && key in seen && Accepted(uids, store, key) && SessionOf(key) == p
    && forall other :: other in seen && Accepted(uids, store, other) && SessionOf(other) == p ==>
         IndexOf(other) <= IndexOf(key)
  }

  ghost predicate ScoresOf(uids: set<string>, store: Store, listing: seq<string>, r: Read) {
    && Sorted(r.sessions) && |r.sessions| == |r.keys| == |r.scores|
    && (forall key :: key in listing && Accepted(uids, store, key) ==> SessionOf(key) in r.sessions)
    && (forall i :: 0 <= i < |r.sessions| ==>
          Highest(uids, store, listing, r.sessions[i], r.keys[i]) && r.scores[i] == Total(store[r.keys[i]].rmScores))
  }

  ghost predicate Listing(listing: seq<string>, store: Store) {
    forall key :: key in listing <==> key in store
  }

  /** What the scan of a listing has found out: the highest index so far, with its key, for each
      session, and the status of each asked uid that is listed itself. */
  ghost predicate Found(uids: set<string>, store: Store, seen: seq<string>, final: map<SessionKey, (int, string)>) {
    && (forall p :: p in final ==> Highest(uids, store, seen, p, final[p].1) && final[p].0 == IndexOf(final[p].1))
    && (forall key :: key in seen && Accepted(uids, store, key) ==> SessionOf(key) in final)
  }

  lemma HighestStays(uids: set<string>, store: Store, seen: seq<string>, p: SessionKey, best: string, key: string)
    requires Highest(uids, store, seen, p, best)
    requires Accepted(uids, store, key) && SessionOf(key) == p ==> IndexOf(key) <= IndexOf(best)
    ensures Highest(uids, store, seen + [key], p, best)
  {
  }

  lemma KeyFound(uids: set<string>, store: Store, seen: seq<string>, final: map<SessionKey, (int, string)>, key: string)
    requires Found(uids, store, seen, final)
    ensures var better := Accepted(uids, store, key) &&
                          (SessionOf(key) !in final || final[SessionOf(key)].0 < IndexOf(key));
            Found(uids, store, seen + [key], if better then final[SessionOf(key) := (IndexOf(key), key)] else final)
  {
    forall p | p in final && !(Accepted(uids, store, key) && SessionOf(key) == p && final[p].0 < IndexOf(key))
      ensures Highest(uids, store, seen + [key], p, final[p].1)
    {
      HighestStays(uids, store, seen, p, final[p].1, key);
    }
  }

  ghost predicate StatusOf(uids: set<string>, store: Store, seen: seq<string>, status: map<string, string>) {
    && (forall uid :: uid in status <==> uid in uids && uid in seen && RSplit(uid).None?)
    && (forall uid :: uid in status && uid in store ==> status[uid] == store[uid].status)
  }

  ghost predicate ReadOf(uids: set<string>, store: Store, listing: seq<string>, r: Read) {
    ScoresOf(uids, store, listing, r) && StatusOf(uids, store, listing, r.status)
  }

  method ScanListing(uids: set<string>, store: Store, listing: seq<string>)
      returns (final: map<SessionKey, (int, string)>, status: map<string, string>)
    requires Listing(listing, store)
    ensures Found(uids, store, listing, final) && StatusOf(uids, store, listing, status)
  {
    final, status := map[], map[];
    for n := 0 to |listing|
      invariant Found(uids, store, listing[..n], final)
      invariant StatusOf(uids, store, listing[..n], status)
    {
      var key := listing[n];
      assert key in listing;
      assert listing[..n + 1] == listing[..n] + [key];
      KeyFound(uids, store, listing[..n], final, key);
      if RSplit(key).None? {
        if key in uids {
          status := status[key := store[key].status];
        }
      } else if Accepted(uids, store, key) {
        var p, index := SessionOf(key), IndexOf(key);
        if p !in final || final[p].0 < index {
          final := final[p := (index, key)];
        }
      }
    }
    assert listing[..|listing|] == listing;
  }

  method ScoreSessions(store: Store, final: map<SessionKey, (int, string)>, sessions: seq<SessionKey>)
      returns (keys: seq<string>, scores: seq<real>)
    requires forall i :: 0 <= i < |sessions| ==> sessions[i] in final && final[sessions[i]].1 in store
    ensures |keys| == |scores| == |sessions|
    ensures forall i :: 0 <= i < |sessions| ==>
              keys[i] == final[sessions[i]].1 && scores[i] == Total(store[keys[i]].rmScores)
  {
    keys, scores := [], [];
    for i := 0 to |sessions|
      invariant |keys| == |scores| == i
      invariant forall j :: 0 <= j < i ==>
                  keys[j] == final[sessions[j]].1 && scores[j] == Total(store[keys[j]].rmScores)
    {
      keys := keys + [final[sessions[i]].1];
      scores := scores + [Total(store[final[sessions[i]].1].rmScores)];
    }
  }

  method ReadRmScores(uids: set<string>, store: Store, listing: seq<string>) returns (r: Read)
    requires Listing(listing, store)
    ensures ReadOf(uids, store, listing, r)
  {
    var final, status := ScanListing(uids, store, listing);
    var sessions := SortSessions(final.Keys);
    forall i | 0 <= i < |sessions|
      ensures sessions[i] in final && Highest(uids, store, listing, sessions[i], final[sessions[i]].1)
    {
      assert sessions[i] in sessions;
    }
    var keys, scores := ScoreSessions(store, final, sessions);
    r := Read(sessions, keys, scores, status);
  }

  method SortSessions(keys: set<SessionKey>) returns (sorted: seq<SessionKey>)
    ensures Sorted(sorted) && forall p :: p in sorted <==> p in keys
  {
    sorted := [];
    var left := keys;
    while left != {}
      invariant left <= keys && Sorted(sorted)
      invariant forall p :: p in sorted <==> p in keys && p !in left
      decreases |left|
    {
      var p :| p in left;
      InsertSorts(p, sorted);
      InsertKeeps(p, sorted);
      sorted := InsertSorted(p, sorted);
      left := left - {p};
    }
  }

  // ----- reading back what was written -----

  /** Each session that was written under one of the uids, with at least one trajectory, gets one
      score: the score of its last trajectory. */
  lemma EverySessionIsScored(uids: set<string>, puts: seq<Put>, listing: seq<string>, r: Read, k: nat)
      returns (i: nat)
    requires WellWritten(puts) && Listing(listing, Stored(puts)) && ScoresOf(uids, Stored(puts), listing, r)
    requires k < |puts| && puts[k].Session? && puts[k].uid in uids && puts[k].trajectories != []
    ensures i < |r.sessions| && r.sessions[i] == (puts[k].uid, Decimal(puts[k].session))
    ensures r.scores[i] == Score(puts[k].trajectories[|puts[k].trajectories| - 1])
    ensures forall j :: 0 <= j < |r.sessions| && j != i ==> r.sessions[j] != r.sessions[i]
  {
    hide Stored, Decimal, Key, Score, ParseInt;
    var store := Stored(puts);
    var n := |puts[k].trajectories|;
    var last := Key(puts[k].uid, puts[k].session, n - 1);
    RecordAccepted(uids, puts, k, n - 1);
    i :| 0 <= i < |r.sessions| && r.sessions[i] == SessionOf(last);
    var best := r.keys[i];
    assert Accepted(uids, store, best);
    var k', j := OnlyRecordsSucceed(puts, best);
    KeySplits(puts[k'].uid, puts[k'].session, j);
    KeySplits(puts[k].uid, puts[k].session, n - 1);
    DecimalIsInt(puts[k].session);
    DecimalIsInt(puts[k'].session);
    DecimalIsInt(j);
    DecimalIsInt(n - 1);
    assert k' == k && j == n - 1;
    RecordIsStored(puts, k, n - 1);
    ScoreIsTotal(puts[k].trajectories[n - 1]);
    forall j | 0 <= j < |r.sessions| && j != i ensures r.sessions[j] != r.sessions[i] {
      LessTotal(r.sessions[i], r.sessions[i]);
    }
  }

  lemma RecordAccepted(uids: set<string>, puts: seq<Put>, k: nat, i: nat)
    requires WellWritten(puts) && k < |puts| && puts[k].Session? && puts[k].uid in uids
    requires i < |puts[k].trajectories|
    ensures var key := Key(puts[k].uid, puts[k].session, i);
            Accepted(uids, Stored(puts), key) && SessionOf(key) == (puts[k].uid, Decimal(puts[k].session)) &&
            IndexOf(key) == i
  {
    RecordIsStored(puts, k, i);
    KeySplits(puts[k].uid, puts[k].session, i);
    DecimalIsInt(i);
  }

  /** And nothing else gets a score. */
  lemma OnlySessionsAreScored(uids: set<string>, puts: seq<Put>, listing: seq<string>, r: Read, i: nat)
      returns (k: nat)
    requires WellWritten(puts) && Listing(listing, Stored(puts)) && ScoresOf(uids, Stored(puts), listing, r)
    requires i < |r.sessions|
    ensures k < |puts| && puts[k].Session? && puts[k].uid in uids && puts[k].trajectories != []
    ensures r.sessions[i] == (puts[k].uid, Decimal(puts[k].session))
  {
    assert Accepted(uids, Stored(puts), r.keys[i]);
    var j;
    k, j := OnlyRecordsSucceed(puts, r.keys[i]);
    KeySplits(puts[k].uid, puts[k].session, j);
  }

  /** The order of the listing does not matter. */
  lemma ListingOrderIsIrrelevant(uids: set<string>, puts: seq<Put>, a: seq<string>, b: seq<string>, r: Read, q: Read)
    requires WellWritten(puts) && Listing(a, Stored(puts)) && Listing(b, Stored(puts))
    requires ReadOf(uids, Stored(puts), a, r) && ReadOf(uids, Stored(puts), b, q)
    ensures r.sessions == q.sessions && r.scores == q.scores && r.status == q.status
  {
    forall p ensures p in r.sessions <==> p in q.sessions {
      if p in r.sessions {
        var i :| 0 <= i < |r.sessions| && r.sessions[i] == p;
        assert Highest(uids, Stored(puts), a, p, r.keys[i]);
        assert r.keys[i] in b;
      }
      if p in q.sessions {
        var i :| 0 <= i < |q.sessions| && q.sessions[i] == p;
        assert Highest(uids, Stored(puts), b, p, q.keys[i]);
        assert q.keys[i] in a;
      }
    }
    SortedUnique(r.sessions, q.sessions);
    forall i | 0 <= i < |r.sessions| ensures r.scores[i] == q.scores[i] {
      var k := OnlySessionsAreScored(uids, puts, a, r, i);
      var i1 := EverySessionIsScored(uids, puts, a, r, k);
      var i2 := EverySessionIsScored(uids, puts, b, q, k);
    }
  }
}
