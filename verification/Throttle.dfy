/** The login throttle: one upserted counter per key, a fixed window, and what it bounds on any interval. */
module Throttle {
  import opened Orders
  import opened Wrappers
  import opened Utf8

  /** Fifteen minutes, in seconds. */
  const WINDOW: int := 900
  const EMAIL_LIMIT: int := 10
  const ADDRESS_LIMIT: int := 50

  /** A row of `auth_throttles`. */
  datatype Counter = Counter(attempts: int, resetsAt: int)

  /** What one `consumeAttempt` makes of a key's row. */
  function Bumped(row: Option<Counter>, now: int): Counter
  {
    if row.None? || row.value.resetsAt <= now then Counter(1, now + WINDOW)
    else Counter(row.value.attempts + 1, row.value.resetsAt)
  }

  function RowOf(rows: map<string, Counter>, key: string): Option<Counter>
  {
    if key in rows then Some(rows[key]) else None
  }

  function Limit(key: string): int { if "email:" <= key then EMAIL_LIMIT else ADDRESS_LIMIT }

  function LowerAscii(s: string): string
  {
    seq(|s|, i requires 0 <= i < |s| => if 'A' <= s[i] <= 'Z' then (s[i] as int + 32) as char else s[i])
  }

  function EmailKey(email: string): string { "email:" + LowerAscii(email) }

  function AddressKey(address: string): string { "address:" + address }

  lemma KeysAreApart(email: string, address: string)
    ensures EmailKey(email) != AddressKey(address) && Limit(EmailKey(email)) == 10 && Limit(AddressKey(address)) == 50
  {
    assert EmailKey(email)[0] == 'e' && AddressKey(address)[0] == 'a';
    assert AddressKey(address)[0] != "email:"[0];
  }

  predicate SameLetter(c: char, d: char)
  {
    c == d || ('A' <= c <= 'Z' && d as int == c as int + 32) || ('A' <= d <= 'Z' && c as int == d as int + 32)
  }

  /** Two emails share a counter exactly when they are the same but for the case of the letters A to Z. */
  lemma SameEmailExactly(a: string, b: string)
    ensures EmailKey(a) == EmailKey(b) <==> |a| == |b| && forall i :: 0 <= i < |a| ==> SameLetter(a[i], b[i])
  {
    var x, y := LowerAscii(a), LowerAscii(b);
    assert EmailKey(a)[6..] == x && EmailKey(b)[6..] == y;
    if |a| == |b| {
      forall i | 0 <= i < |a| ensures x[i] == y[i] <==> SameLetter(a[i], b[i]) { }
      if forall i :: 0 <= i < |a| ==> SameLetter(a[i], b[i]) { assert x == y; }
    }
  }

  /** Addresses are told apart as they are. */
  lemma SameAddressExactly(a: string, b: string)
    ensures AddressKey(a) == AddressKey(b) <==> a == b
  {
    assert AddressKey(a)[8..] == a && AddressKey(b)[8..] == b;
  }

  /** The lengths count bytes. */
  predicate CredentialsFit(email: string, password: string)
  {
    1 <= |Encode(email)| <= 254 && 1 <= |Encode(password)| <= 256
  }

  datatype Gate = BadInput | RateLimited | PasswordChecked

  /** The rows once `key` has been charged. */
  function Charged(rows: map<string, Counter>, key: string, now: int): map<string, Counter>
  {
    rows[key := Bumped(RowOf(rows, key), now)]
  }

  class Gatekeeper {
    var rows: map<string, Counter>
    const hash: string -> string

    constructor (hash: string -> string)
      ensures rows == map[] && this.hash == hash
    {
      this.hash := hash;
      rows := map[];
    }

    /** INSERT ... ON CONFLICT DO UPDATE ... RETURNING attempts. */
    method ConsumeAttempt(key: string, now: int) returns (attempts: int)
      modifies this
      ensures rows == old(rows)[key := Bumped(RowOf(old(rows), key), now)]
      ensures var newWindow := key !in old(rows) || old(rows)[key].resetsAt <= now;
        && rows[key].attempts == (if newWindow then 1 else old(rows)[key].attempts + 1)
        && rows[key].resetsAt == (if newWindow then now + 15 * 60 else old(rows)[key].resetsAt)
      ensures attempts == rows[key].attempts
    {
      if key !in rows {
        rows := rows[key := Counter(1, now + WINDOW)];
      } else {
        var row := rows[key];
        attempts := if row.resetsAt <= now then 1 else row.attempts + 1;
        var resetsAt := if row.resetsAt <= now then now + WINDOW else row.resetsAt;
        rows := rows[key := Counter(attempts, resetsAt)];
      }
      attempts := rows[key].attempts;
    }

    /** `login` up to the password check. The address is charged only if the email was within its limit;
        a refusal has charged what it looked at; malformed input charges nothing. */
    method Login(rawEmail: string, password: string, address: string, now: int) returns (gate: Gate)
      modifies this
      ensures gate == BadInput <==>
        rawEmail == "" || |Encode(rawEmail)| > 254 || password == "" || |Encode(password)| > 256
      ensures gate == BadInput ==> rows == old(rows)
      ensures var email, addr := hash(EmailKey(rawEmail)), hash(AddressKey(address));
              var once := Charged(old(rows), email, now);
              var twice := Charged(once, addr, now);
        gate != BadInput ==>
          && (gate == PasswordChecked <==> once[email].attempts <= EMAIL_LIMIT && twice[addr].attempts <= ADDRESS_LIMIT)
          && rows == if once[email].attempts > EMAIL_LIMIT then once else twice
    {
      EncodeStartsWithLead(rawEmail);
      EncodeStartsWithLead(password);
      if !CredentialsFit(rawEmail, password) { return BadInput; }
      KeysAreApart(rawEmail, address);
      var email := LowerAscii(rawEmail);
      var keys := ["email:" + email, "address:" + address];
      ghost var once := Charged(rows, hash(keys[0]), now);
      var i := 0;
      while i < 2
        invariant 0 <= i <= 2
        invariant i == 0 ==> rows == old(rows)
        invariant i == 1 ==> rows == once
        invariant i >= 1 ==> once[hash(keys[0])].attempts <= EMAIL_LIMIT
        invariant i == 2 ==> rows == Charged(once, hash(keys[1]), now) && rows[hash(keys[1])].attempts <= ADDRESS_LIMIT
      {
        var attempts := ConsumeAttempt(hash(keys[i]), now);
        if attempts > (if "email:" <= keys[i] then 10 else 50) { return RateLimited; }
        i := i + 1;
      }
      gate := PasswordChecked;
    }
  }

  // Any sequence of statements, from any number of logins at once.

  /** One `consumeAttempt`, made by some login. */
  datatype Attempt = Attempt(login: nat, key: string, now: int)

  /** The trace is in the order in which the row is updated; `now` is when a statement started, before it may
      have waited for the row. None runs after one that started more than `lag` seconds later. */
  ghost predicate Lagging(trace: seq<Attempt>, lag: nat)
  {
    forall i, j :: 0 <= i < j < |trace| ==> trace[i].now <= trace[j].now + lag
  }

  /** The row of `key` after the trace. */
  function RowAfter(trace: seq<Attempt>, key: string): Option<Counter>
  {
    if trace == [] then None
    else
      var row := RowAfter(trace[..|trace| - 1], key);
      var last := trace[|trace| - 1];
      if last.key == key then Some(Bumped(row, last.now)) else row
  }

  lemma Answered(trace: seq<Attempt>, i: nat)
    requires i < |trace|
    ensures RowAfter(trace[..i + 1], trace[i].key).Some?
  {
    assert trace[..i + 1][..i] == trace[..i];
  }

  function Row(trace: seq<Attempt>, i: nat): Counter
    requires i < |trace|
  {
    Answered(trace, i);
    RowAfter(trace[..i + 1], trace[i].key).value
  }

  /** The i-th attempt is within its limit. */
  predicate Granted(trace: seq<Attempt>, i: nat)
    requires i < |trace|
  {
    Row(trace, i).attempts <= Limit(trace[i].key)
  }

  function GrantedWithin(trace: seq<Attempt>, key: string, from: int, to: int): set<nat>
  {
    set i: nat | i < |trace| && trace[i].key == key && from <= trace[i].now <= to && Granted(trace, i)
  }

  /** Attempts that fall into the window that ends at `resetsAt`. */
  function GrantedInWindow(trace: seq<Attempt>, key: string, resetsAt: int): set<nat>
  {
    set i: nat | i < |trace| && trace[i].key == key && Row(trace, i).resetsAt == resetsAt && Granted(trace, i)
  }

  lemma EarlierGrants(trace: seq<Attempt>, i: nat)
    requires i < |trace| - 1
    ensures Row(trace[..|trace| - 1], i) == Row(trace, i)
  {
    assert trace[..|trace| - 1][..i + 1] == trace[..i + 1];
  }

  lemma WithinStep(trace: seq<Attempt>, key: string, from: int, to: int)
    requires trace != []
    ensures var last, front := |trace| - 1, trace[..|trace| - 1];
      && last !in GrantedWithin(front, key, from, to)
      && GrantedWithin(trace, key, from, to) == GrantedWithin(front, key, from, to) +
           (if trace[last].key == key && from <= trace[last].now <= to && Granted(trace, last) then {last} else {})
  {
    forall i: nat | i < |trace| - 1 { EarlierGrants(trace, i); }
  }

  lemma WindowStep(trace: seq<Attempt>, key: string, resetsAt: int)
    requires trace != []
    ensures var last, front := |trace| - 1, trace[..|trace| - 1];
      && last !in GrantedInWindow(front, key, resetsAt)
      && GrantedInWindow(trace, key, resetsAt) == GrantedInWindow(front, key, resetsAt) +
           (if trace[last].key == key && Row(trace, last).resetsAt == resetsAt && Granted(trace, last) then {last}
             else {})
  {
    forall i: nat | i < |trace| - 1 { EarlierGrants(trace, i); }
  }

  lemma LastRow(trace: seq<Attempt>, key: string)
    requires trace != [] && trace[|trace| - 1].key == key
    ensures Row(trace, |trace| - 1) == Bumped(RowAfter(trace[..|trace| - 1], key), trace[|trace| - 1].now)
    ensures RowAfter(trace, key) == Some(Row(trace, |trace| - 1))
  {
    assert trace[..|trace|] == trace;
  }

  lemma GrantedByRow(trace: seq<Attempt>, i: nat)
    requires i < |trace|
    ensures Granted(trace, i) <==> Row(trace, i).attempts <= Limit(trace[i].key)
  {
  }

  function Min(a: int, b: int): int { if a < b then a else b }

  /** How many windows, one after another and the last one starting at `start`, can reach beyond `from`. */
  function Windows(start: int, from: int): nat
    decreases start - from + WINDOW
  {
    if start <= from - WINDOW then 0 else 1 + Windows(start - WINDOW, from)
  }

  lemma {:induction false} EarlierStartsAreFewer(a: int, b: int, from: int)
    requires a <= b
    ensures Windows(a, from) <= Windows(b, from)
    decreases b - from + WINDOW
  {
    if a > from - WINDOW { EarlierStartsAreFewer(a - WINDOW, b - WINDOW, from); }
  }

  lemma {:induction false} WindowsFit(start: int, from: int, m: nat)
    requires start <= from + m * WINDOW
    ensures Windows(start, from) <= m + 1
    decreases m
  {
    if m > 0 { WindowsFit(start - WINDOW, from, m - 1); }
  }

  /** How many grants an interval that starts at `from` can have seen, given where the current window lies. */
  function Bound(row: Option<Counter>, from: int, limit: int, m: nat): int
  {
    if row.None? then 0
    else
      var start := row.value.resetsAt - WINDOW;
      if start <= from - WINDOW then 0
      else if start > from + m * WINDOW then (m + 1) * limit
      else (Windows(start, from) - 1) * limit + Min(row.value.attempts, limit)
  }

  lemma MultiplesOrdered(a: int, b: int, limit: int)
    requires a <= b && limit >= 0
    ensures a * limit <= b * limit && (a - 1) * limit + limit == a * limit
  {
  }

  lemma BoundStays(row: Option<Counter>, from: int, limit: int, m: nat)
    requires limit >= 1 && (row.Some? ==> row.value.attempts >= 1)
    ensures 0 <= Bound(row, from, limit, m) <= (m + 1) * limit
    ensures row.Some? && row.value.resetsAt - WINDOW <= from + m * WINDOW ==>
      Bound(row, from, limit, m) <= Windows(row.value.resetsAt - WINDOW, from) * limit
  {
    MultiplesOrdered(0, m + 1, limit);
    if row.Some? {
      var start := row.value.resetsAt - WINDOW;
      if from - WINDOW < start <= from + m * WINDOW {
        WindowsFit(start, from, m);
        MultiplesOrdered(Windows(start, from), m + 1, limit);
        MultiplesOrdered(0, Windows(start, from) - 1, limit);
      } else if start <= from - WINDOW {
        assert Windows(start, from) == 0;
      }
    }
  }

  lemma BoundSameWindow(row: Counter, from: int, to: int, limit: int, m: nat, lag: nat, now: int)
    requires limit >= 1 && row.attempts >= 1 && row.resetsAt - WINDOW <= now + lag && to - from + lag <= m * WINDOW
    requires now < row.resetsAt
    ensures var next := Counter(row.attempts + 1, row.resetsAt);
      Bound(Some(row), from, limit, m) + (if from <= now <= to && next.attempts <= limit then 1 else 0) <=
        Bound(Some(next), from, limit, m)
  {
  }

  lemma BoundNewWindow(row: Option<Counter>, from: int, to: int, limit: int, m: nat, lag: nat, now: int)
    requires limit >= 1 && (row.Some? ==> row.value.attempts >= 1 && row.value.resetsAt <= now)
    requires to - from + lag <= m * WINDOW
    ensures Bound(row, from, limit, m) + (if from <= now <= to then 1 else 0) <=
      Bound(Some(Counter(1, now + WINDOW)), from, limit, m)
  {
    hide Windows;
    BoundStays(row, from, limit, m);
    if from - WINDOW < now <= from + m * WINDOW {
      FirstOfItsWindow(row, from, limit, m, now);
    }
  }

  lemma FirstOfItsWindow(row: Option<Counter>, from: int, limit: int, m: nat, now: int)
    requires limit >= 1 && (row.Some? ==> row.value.attempts >= 1 && row.value.resetsAt <= now)
    requires from - WINDOW < now <= from + m * WINDOW
    ensures Bound(row, from, limit, m) + 1 <= Bound(Some(Counter(1, now + WINDOW)), from, limit, m)
  {
    BoundStays(row, from, limit, m);
    if row.Some? {
      var start := row.value.resetsAt - WINDOW;
      EarlierStartsAreFewer(start, now - WINDOW, from);
      MultiplesOrdered(Windows(start, from), Windows(now, from) - 1, limit);
    } else {
      MultiplesOrdered(0, Windows(now, from) - 1, limit);
    }
  }

  lemma BoundStep(row: Option<Counter>, from: int, to: int, limit: int, m: nat, lag: nat, now: int)
    requires limit >= 1 && to - from + lag <= m * WINDOW
    requires row.Some? ==> row.value.attempts >= 1 && row.value.resetsAt - WINDOW <= now + lag
    ensures var next := Bumped(row, now);
      Bound(row, from, limit, m) + (if from <= now <= to && next.attempts <= limit then 1 else 0) <=
        Bound(Some(next), from, limit, m)
  {
    hide Bound;
    if row.None? || row.value.resetsAt <= now {
      BoundNewWindow(row, from, to, limit, m, lag, now);
    } else {
      BoundSameWindow(row.value, from, to, limit, m, lag, now);
    }
  }

  lemma NothingYet(key: string, from: int, m: nat)
    ensures Bound(RowAfter([], key), from, Limit(key), m) == 0
  {
  }

  lemma LimitIsPositive(key: string)
    ensures Limit(key) >= 1
  {
  }

  ghost predicate StartedBy(trace: seq<Attempt>, row: Counter)
  {
    exists i :: 0 <= i < |trace| && trace[i].now + WINDOW == row.resetsAt
  }

  /** A row counts at least one attempt, and some statement has started its window. */
  lemma {:induction false} RowIsSound(trace: seq<Attempt>, key: string)
    ensures RowAfter(trace, key).Some? ==>
      RowAfter(trace, key).value.attempts >= 1 && StartedBy(trace, RowAfter(trace, key).value)
    decreases |trace|
  {
    if trace != [] {
      var last, front := |trace| - 1, trace[..|trace| - 1];
      RowIsSound(front, key);
      assert trace[last] in trace;
      if RowAfter(front, key).Some? {
        var i :| 0 <= i < |front| && front[i].now + WINDOW == RowAfter(front, key).value.resetsAt;
        assert trace[i] == front[i];
      }
    }
  }

  lemma {:induction false} GrantsAreCounted(trace: seq<Attempt>, key: string, from: int, to: int, lag: nat, m: nat)
    requires Lagging(trace, lag) && to - from + lag <= m * WINDOW
    ensures |GrantedWithin(trace, key, from, to)| <= Bound(RowAfter(trace, key), from, Limit(key), m)
    decreases |trace|
  {
    hide Granted, Bound, Bumped, Limit;
    if trace == [] {
      assert GrantedWithin(trace, key, from, to) == {};
      NothingYet(key, from, m);
    } else {
      var last, front := |trace| - 1, trace[..|trace| - 1];
      GrantsAreCounted(front, key, from, to, lag, m);
      WithinStep(trace, key, from, to);
      if trace[last].key == key {
        LastRow(trace, key);
        RowIsSound(front, key);
        LimitIsPositive(key);
        BoundStep(RowAfter(front, key), from, to, Limit(key), m, lag, trace[last].now);
        GrantedByRow(trace, last);
      }
    }
  }

  /** On any interval, wherever it lies: if with the lag it is no longer than `m` windows, at most `m` + 1
      times the limit is granted. */
  lemma GrantsAreBounded(trace: seq<Attempt>, key: string, from: int, to: int, lag: nat, m: nat)
    requires Lagging(trace, lag) && to - from + lag <= m * WINDOW
    ensures |GrantedWithin(trace, key, from, to)| <= (m + 1) * Limit(key)
  {
    GrantsAreCounted(trace, key, from, to, lag, m);
    RowIsSound(trace, key);
    LimitIsPositive(key);
    BoundStays(RowAfter(trace, key), from, Limit(key), m);
  }

  function WindowBound(row: Option<Counter>, resetsAt: int, limit: int): int
  {
    if row.None? || row.value.resetsAt < resetsAt then 0
    else if row.value.resetsAt == resetsAt then Min(row.value.attempts, limit)
    else limit
  }

  lemma WindowBoundStep(row: Option<Counter>, resetsAt: int, limit: int, now: int)
    requires limit >= 1 && (row.Some? ==> row.value.attempts >= 1)
    ensures var next := Bumped(row, now);
      WindowBound(row, resetsAt, limit) + (if next.resetsAt == resetsAt && next.attempts <= limit then 1 else 0) <=
        WindowBound(Some(next), resetsAt, limit)
  {
  }

  lemma {:induction false} WindowIsBounded(trace: seq<Attempt>, key: string, resetsAt: int)
    ensures |GrantedInWindow(trace, key, resetsAt)| <= WindowBound(RowAfter(trace, key), resetsAt, Limit(key))
    ensures RowAfter(trace, key).Some? ==> RowAfter(trace, key).value.attempts >= 1
    decreases |trace|
  {
    if trace == [] {
      assert GrantedInWindow(trace, key, resetsAt) == {};
    } else {
      var last, front := |trace| - 1, trace[..|trace| - 1];
      WindowIsBounded(front, key, resetsAt);
      WindowStep(trace, key, resetsAt);
      if trace[last].key == key {
        LastRow(trace, key);
        WindowBoundStep(RowAfter(front, key), resetsAt, Limit(key), trace[last].now);
      }
    }
  }

  // Logins.

  /** Both statements of the login were within their limits: its password is checked. */
  ghost predicate Passed(trace: seq<Attempt>, login: nat, email: string, address: string, i: nat, j: nat)
  {
    && i < j < |trace| && trace[i].login == login && trace[j].login == login
    && trace[i].key == EmailKey(email) && trace[j].key == AddressKey(address)
    && Granted(trace, i) && Granted(trace, j)
  }

  /** The email statements, of this email and within the interval, of logins whose password was checked. */
  ghost function PassedByEmail(trace: seq<Attempt>, email: string, from: int, to: int): set<nat>
  {
    set i: nat | i < |trace| && from <= trace[i].now <= to && exists address, j: nat ::
      Passed(trace, trace[i].login, email, address, i, j)
  }

  ghost function PassedByAddress(trace: seq<Attempt>, address: string, from: int, to: int): set<nat>
  {
    set j: nat | j < |trace| && from <= trace[j].now <= to && exists email, i: nat ::
      Passed(trace, trace[j].login, email, address, i, j)
  }

  /** Per email ten, per address fifty password checks for each window the interval can meet. In fifteen minutes
      that is twenty and a hundred as long as statements run in the order they started, and thirty and a hundred
      and fifty if they are late by fifteen minutes at most. */
  lemma PasswordChecksPerInterval(trace: seq<Attempt>, email: string, address: string, from: int, to: int, lag: nat,
          m: nat)
    requires Lagging(trace, lag) && to - from + lag <= m * WINDOW
    ensures |PassedByEmail(trace, email, from, to)| <= 10 * (m + 1)
    ensures |PassedByAddress(trace, address, from, to)| <= 50 * (m + 1)
  {
    KeysAreApart(email, address);
    GrantsAreBounded(trace, EmailKey(email), from, to, lag, m);
    GrantsAreBounded(trace, AddressKey(address), from, to, lag, m);
    SubsetCount(PassedByEmail(trace, email, from, to), GrantedWithin(trace, EmailKey(email), from, to));
    SubsetCount(PassedByAddress(trace, address, from, to), GrantedWithin(trace, AddressKey(address), from, to));
  }

  /** In one window at most ten per email and fifty per address. */
  lemma GrantsPerWindow(trace: seq<Attempt>, email: string, address: string, resetsAt: int)
    ensures |GrantedInWindow(trace, EmailKey(email), resetsAt)| <= 10
    ensures |GrantedInWindow(trace, AddressKey(address), resetsAt)| <= 50
  {
    KeysAreApart(email, address);
    WindowIsBounded(trace, EmailKey(email), resetsAt);
    WindowIsBounded(trace, AddressKey(address), resetsAt);
  }

  /** However many attempts are made before `resets_at`, they do not move it, and the first attempt
      at or after it starts a new window and is granted. */
  lemma {:induction false} ReadmittedAtReset(trace: seq<Attempt>, m: nat, key: string, i: nat)
    requires m <= i < |trace| && RowAfter(trace[..m], key).Some? && trace[i].key == key
    requires var r := RowAfter(trace[..m], key).value.resetsAt;
      r <= trace[i].now && forall k :: m <= k < i && trace[k].key == key ==> trace[k].now < r
    ensures Row(trace, i) == Counter(1, trace[i].now + WINDOW) && Granted(trace, i)
  {
    ResetStays(trace, m, key, i);
    assert trace[..i + 1][..i] == trace[..i];
  }

  lemma {:induction false} ResetStays(trace: seq<Attempt>, m: nat, key: string, i: nat)
    requires m <= i <= |trace| && RowAfter(trace[..m], key).Some?
    requires forall k :: m <= k < i && trace[k].key == key ==> trace[k].now < RowAfter(trace[..m], key).value.resetsAt
    ensures RowAfter(trace[..i], key).Some?
      && RowAfter(trace[..i], key).value.resetsAt == RowAfter(trace[..m], key).value.resetsAt
    decreases i
  {
    if i > m {
      ResetStays(trace, m, key, i - 1);
      assert trace[..i][..i - 1] == trace[..i - 1];
    }
  }

  // The bound is met.

  /** `k` attempts on one key at once. */
  function Burst(key: string, now: int, k: nat): seq<Attempt>
  {
    seq(k, i requires 0 <= i < k => Attempt(i, key, now))
  }

  /** As many as allowed at the start of each of `m` + 1 windows, one right after the other. */
  function Bursts(key: string, m: nat): seq<Attempt>
    requires Limit(key) >= 0
  {
    (if m == 0 then [] else Bursts(key, m - 1)) + Burst(key, m * WINDOW, Limit(key))
  }

  lemma {:induction false} BurstsShape(key: string, m: nat)
    ensures var t := Bursts(key, m);
      && |t| == (m + 1) * Limit(key) && Lagging(t, 0)
      && forall i :: 0 <= i < |t| ==> t[i].key == key && 0 <= t[i].now <= m * WINDOW
  {
    if m > 0 { BurstsShape(key, m - 1); }
  }

  /** A burst at or after the reset starts a window and fills it. */
  lemma {:induction false} BurstRow(before: seq<Attempt>, key: string, now: int, k: nat)
    requires k >= 1 && (RowAfter(before, key).Some? ==> RowAfter(before, key).value.resetsAt <= now)
    ensures RowAfter(before + Burst(key, now, k), key) == Some(Counter(k, now + WINDOW))
    decreases k
  {
    hide Limit;
    var t := before + Burst(key, now, k);
    assert t[|t| - 1] == Attempt(k - 1, key, now) && t[..|t| - 1] == before + Burst(key, now, k - 1);
    if k == 1 {
      assert before + Burst(key, now, 0) == before;
    } else {
      BurstRow(before, key, now, k - 1);
    }
  }

  lemma NoRowYet(key: string)
    ensures RowAfter([], key).None?
  {
  }

  lemma {:induction false} BurstsRow(key: string, m: nat)
    ensures RowAfter(Bursts(key, m), key) == Some(Counter(Limit(key), (m + 1) * WINDOW))
  {
    hide RowAfter, Limit, Burst;
    LimitIsPositive(key);
    NoRowYet(key);
    if m == 0 {
      BurstRow([], key, 0, Limit(key));
    } else {
      BurstsRow(key, m - 1);
      BurstRow(Bursts(key, m - 1), key, m * WINDOW, Limit(key));
    }
  }

  lemma {:induction false} BurstsGranted(key: string, m: nat, i: nat)
    requires i < |Bursts(key, m)|
    ensures Granted(Bursts(key, m), i)
  {
    hide RowAfter, Limit;
    LimitIsPositive(key);
    NoRowYet(key);
    var t, before := Bursts(key, m), if m == 0 then [] else Bursts(key, m - 1);
    if i < |before| {
      BurstsGranted(key, m - 1, i);
      assert t[..i + 1] == before[..i + 1];
    } else {
      var k := i + 1 - |before|;
      assert t[..i + 1] == before + Burst(key, m * WINDOW, k);
      if m > 0 { BurstsRow(key, m - 1); }
      BurstRow(before, key, m * WINDOW, k);
    }
  }

  /** The bound is reached for every `m`: the fixed window admits its limit at the start and again at the end. */
  lemma BoundIsReached(key: string, m: nat)
    ensures Lagging(Bursts(key, m), 0)
    ensures |GrantedWithin(Bursts(key, m), key, 0, m * WINDOW)| == (m + 1) * Limit(key)
  {
    var t := Bursts(key, m);
    BurstsShape(key, m);
    forall i: nat | i < |t| ensures Granted(t, i) { BurstsGranted(key, m, i); }
    assert GrantedWithin(t, key, 0, m * WINDOW) == Indices(|t|);
  }

  function Indices(n: nat): (s: set<nat>)
    ensures |s| == n && forall i: nat :: i in s <==> i < n
  {
    if n == 0 then {} else Indices(n - 1) + {n - 1}
  }
}
