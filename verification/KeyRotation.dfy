/** Master keys, their rotation, and the sweep that re-seals old ciphertexts. */
module KeyRotation {
  import opened Prelude

  type Key = nat

  /** A master key as configured: 64 hex characters that decode, or anything else. */
  datatype KeyHex = Hex(key: Key) | Malformed

  /**
   * The text of an encrypted field.  The cipher is ideal: a ciphertext opens under the key that sealed it,
   * to the plaintext that was sealed, and under no other.
   */
  datatype Text = Empty | Sealed(key: Key, plaintext: string, nonce: int) | Garbage(bytes: string)

  function Open(k: Key, t: Text): Option<string> {
    if t.Sealed? && t.key == k then Some(t.plaintext) else None
  }

  /** What a set of keys reads from a text. */
  function Opened(keys: seq<Key>, t: Text): Option<string> {
    if t.Sealed? && t.key in keys then Some(t.plaintext) else None
  }

  class Encryptor {
    const active: Key
    const previous: seq<Key>
    /** How often the fallback observer was invoked. */
    var fallbacks: nat

    function Keys(): seq<Key> { [active] + previous }

    constructor (active: Key, previous: seq<Key>)
      ensures this.active == active && this.previous == previous && fallbacks == 0
    {
      this.active, this.previous, fallbacks := active, previous, 0;
    }

    method Encrypt(plaintext: string, nonce: int) returns (t: Text)
      ensures Opened([active], t) == Some(plaintext) && t == Sealed(active, plaintext, nonce)
    {
      t := Sealed(active, plaintext, nonce);
    }

    method Decrypt(t: Text) returns (r: Option<string>)
      modifies this`fallbacks
      ensures r == Opened(Keys(), t)
      ensures fallbacks == old(fallbacks) + if r.Some? && Opened([active], t).None? then 1 else 0
    {
      r := DecryptWith(t, true);
    }

    method DecryptWithoutFallback(t: Text) returns (r: Option<string>)
      modifies this`fallbacks
      ensures r == Opened(Keys(), t) && fallbacks == old(fallbacks)
    {
      r := DecryptWith(t, false);
    }

    /** The active key first, then each previous key in order. */
    method DecryptWith(t: Text, notify: bool) returns (r: Option<string>)
      modifies this`fallbacks
      ensures r == Opened(Keys(), t)
      ensures fallbacks == old(fallbacks) + if notify && r.Some? && Opened([active], t).None? then 1 else 0
    {
      r := Open(active, t);
      if r.Some? {
        return;
      }
      for i := 0 to |previous|
        invariant Opened([active] + previous[..i], t).None?
        invariant fallbacks == old(fallbacks)
      {
        assert previous[..i + 1] == previous[..i] + [previous[i]];
        r := Open(previous[i], t);
        if r.Some? {
          if notify {
            fallbacks := fallbacks + 1;
          }
          return;
        }
      }
      assert previous[..|previous|] == previous;
      r := None;
    }

    /** None when no key opens the text; else whether only a previous key does. */
    method NeedsReencryption(t: Text) returns (r: Option<bool>)
      ensures r.None? <==> Opened(Keys(), t).None?
      ensures r.Some? ==> (r.value <==> Opened([active], t).None?)
    {
      if Open(active, t).Some? {
        return Some(false);
      }
      for i := 0 to |previous|
        invariant Opened([active] + previous[..i], t).None?
      {
        assert previous[..i + 1] == previous[..i] + [previous[i]];
        if Open(previous[i], t).Some? {
          return Some(true);
        }
      }
      assert previous[..|previous|] == previous;
      r := None;
    }
  }

  /** NewEncryptorWithPrevious: one malformed key refuses the whole configuration. */
  method NewEncryptorWithPrevious(active: KeyHex, previous: seq<KeyHex>) returns (e: Encryptor?)
    ensures e != null <==> active.Hex? && forall k | k in previous :: k.Hex?
    ensures e != null ==> fresh(e) && e.active == active.key
    ensures e != null ==> |e.previous| == |previous|
    ensures e != null ==> forall i | 0 <= i < |previous| :: previous[i] == Hex(e.previous[i])
  {
    if active.Malformed? {
      return null;
    }
    var keys: seq<Key> := [];
    for i := 0 to |previous|
      invariant |keys| == i && forall j | 0 <= j < i :: previous[j] == Hex(keys[j])
    {
      if previous[i].Malformed? {
        assert previous[i] in previous;
        return null;
      }
      keys := keys + [previous[i].key];
    }
    e := new Encryptor(active.key, keys);
  }

  // ---- the rows of a table ----

  /** The encrypted fields of a row: two for PSP credentials, one in the other tables. */
  type Row = seq<Text>

  /** An empty field needs no key. */
  predicate FieldReadable(keys: seq<Key>, t: Text) { t.Empty? || Opened(keys, t).Some? }

  predicate Readable(keys: seq<Key>, row: Row) { forall t | t in row :: FieldReadable(keys, t) }

  /** Some field was sealed under another key than the active one. */
  predicate Legacy(active: Key, row: Row) { exists t :: t in row && t.Sealed? && t.key != active }

  /** The same field, under the active key. */
  predicate FieldResealed(active: Key, before: Text, after: Text) {
    if before.Sealed? && before.key != active
    then after.Sealed? && after.key == active && after.plaintext == before.plaintext
    else after == before
  }

  predicate Resealed(active: Key, before: Row, after: Row) {
    |after| == |before| && forall i | 0 <= i < |before| :: FieldResealed(active, before[i], after[i])
  }

  /** What a sweep does to one row: unreadable rows are left alone, the others re-sealed. */
  predicate RowSwept(e: Encryptor, before: Row, after: Row) {
    if Readable(e.Keys(), before) then Resealed(e.active, before, after) else after == before
  }

  function LegacyCount(e: Encryptor, rows: seq<Row>): nat {
    if rows == [] then 0
    else LegacyCount(e, rows[..|rows| - 1])
         + var r := rows[|rows| - 1]; if Readable(e.Keys(), r) && Legacy(e.active, r) then 1 else 0
  }

  function UnreadableCount(e: Encryptor, rows: seq<Row>): nat {
    if rows == [] then 0
    else UnreadableCount(e, rows[..|rows| - 1]) + if Readable(e.Keys(), rows[|rows| - 1]) then 0 else 1
  }

  method ReencryptField(e: Encryptor, t: Text, nonce: int) returns (r: Option<Text>)
    modifies e`fallbacks
    ensures r.Some? <==> FieldReadable(e.Keys(), t)
    ensures r.Some? ==> FieldResealed(e.active, t, r.value)
    ensures e.fallbacks == old(e.fallbacks)
  {
    if t.Empty? {
      return Some(t);
    }
    var needs := e.NeedsReencryption(t);
    if needs.None? {
      return None;
    }
    if !needs.value {
      return Some(t);
    }
    var plaintext := e.DecryptWithoutFallback(t);
    if plaintext.None? {
      return None;
    }
    var sealed := e.Encrypt(plaintext.value, nonce);
    r := Some(sealed);
  }

  method ReencryptRow(e: Encryptor, row: Row, nonce: int) returns (r: Option<Row>)
    modifies e`fallbacks
    ensures r.Some? <==> Readable(e.Keys(), row)
    ensures r.Some? ==> Resealed(e.active, row, r.value) && (r.value != row <==> Legacy(e.active, row))
    ensures e.fallbacks == old(e.fallbacks)
  {
    var fields: Row := [];
    for i := 0 to |row|
      invariant |fields| == i
      invariant forall j | 0 <= j < i :: FieldReadable(e.Keys(), row[j]) && FieldResealed(e.active, row[j], fields[j])
      invariant e.fallbacks == old(e.fallbacks)
    {
      var t := ReencryptField(e, row[i], nonce);
      if t.None? {
        assert row[i] in row;
        return None;
      }
      fields := fields + [t.value];
    }
    r := Some(fields);
    ChangedIffLegacy(e.active, row, fields);
  }

  lemma ChangedIffLegacy(active: Key, before: Row, after: Row)
    requires Resealed(active, before, after)
    ensures after != before <==> Legacy(active, before)
  {
    if Legacy(active, before) {
      var t :| t in before && t.Sealed? && t.key != active;
      var i :| 0 <= i < |before| && before[i] == t;
      assert after[i] != before[i];
    }
  }

  /** The batch: the first `limit` rows by id, whatever state they are in. */
  function BatchSize(rows: seq<Row>, limit: nat): (n: nat)
    ensures n <= |rows| && n <= limit && (n == limit || n == |rows|)
  {
    Min(limit, |rows|)
  }

  predicate Swept(e: Encryptor, limit: nat, before: seq<Row>, after: seq<Row>) {
    && |after| == |before|
    && (forall i | 0 <= i < BatchSize(before, limit) :: RowSwept(e, before[i], after[i]))
    && (forall i | BatchSize(before, limit) <= i < |before| :: after[i] == before[i])
  }

  /** Every field is empty, or sealed under the active or a previous key. */
  predicate OpensWith(e: Encryptor, row: Row) {
    forall j | 0 <= j < |row| ::
      row[j] == Empty || (row[j].Sealed? && (row[j].key == e.active || row[j].key in e.previous))
  }

  /** A field sealed under another key has the same plaintext under the active one now; any other is as it was. */
  predicate SealedAnew(active: Key, before: Text, after: Text) {
    if before.Sealed? && before.key != active
    then after.Sealed? && after.key == active && after.plaintext == before.plaintext
    else after == before
  }

  /** The positions of the rows that changed. */
  function Rewritten(before: seq<Row>, after: seq<Row>): set<nat>
    requires |after| == |before|
  {
    set i: nat | i < |before| && after[i] != before[i]
  }

  lemma RowSweptMeans(e: Encryptor, before: Row, after: Row)
    requires RowSwept(e, before, after)
    ensures OpensWith(e, before) <==> Readable(e.Keys(), before)
    ensures if OpensWith(e, before)
            then |after| == |before| && forall j | 0 <= j < |before| :: SealedAnew(e.active, before[j], after[j])
            else after == before
    ensures after != before <==> Readable(e.Keys(), before) && Legacy(e.active, before)
  {
    OpensIffReadable(e, before);
    if Readable(e.Keys(), before) {
      ChangedIffLegacy(e.active, before, after);
    }
  }

  lemma OpensIffReadable(e: Encryptor, row: Row)
    ensures OpensWith(e, row) <==> Readable(e.Keys(), row)
  {
    if OpensWith(e, row) {
      forall t | t in row
        ensures FieldReadable(e.Keys(), t)
      {
        var j :| 0 <= j < |row| && row[j] == t;
      }
    }
    if Readable(e.Keys(), row) {
      forall j | 0 <= j < |row|
        ensures row[j] == Empty || (row[j].Sealed? && (row[j].key == e.active || row[j].key in e.previous))
      {
        assert row[j] in row;
      }
    }
  }

  lemma RewrittenNext(before: seq<Row>, after: seq<Row>, n: nat)
    requires |before| == |after| == n + 1
    ensures Rewritten(before, after) ==
            Rewritten(before[..n], after[..n]) + if after[n] != before[n] then {n} else {}
    ensures n !in Rewritten(before[..n], after[..n])
  {
  }

  lemma {:induction false} LegacyIsRewritten(e: Encryptor, before: seq<Row>, after: seq<Row>)
    requires |after| == |before| && forall i | 0 <= i < |before| :: RowSwept(e, before[i], after[i])
    ensures LegacyCount(e, before) == |Rewritten(before, after)|
  {
    if before == [] {
      assert Rewritten(before, after) == {};
    } else {
      var n := |before| - 1;
      LegacyIsRewritten(e, before[..n], after[..n]);
      RowSweptMeans(e, before[n], after[n]);
      RewrittenNext(before, after, n);
    }
  }

  /** The positions of the rows with a field that no key opens. */
  function Unopened(e: Encryptor, rows: seq<Row>): set<nat> {
    set i: nat | i < |rows| && !OpensWith(e, rows[i])
  }

  lemma UnopenedNext(e: Encryptor, rows: seq<Row>, n: nat)
    requires |rows| == n + 1
    ensures Unopened(e, rows) == Unopened(e, rows[..n]) + if OpensWith(e, rows[n]) then {} else {n}
    ensures n !in Unopened(e, rows[..n])
  {
  }

  lemma {:induction false} UnreadableIsUnopened(e: Encryptor, rows: seq<Row>)
    ensures UnreadableCount(e, rows) == |Unopened(e, rows)|
  {
    if rows == [] {
      assert Unopened(e, rows) == {};
    } else {
      var n := |rows| - 1;
      UnreadableIsUnopened(e, rows[..n]);
      OpensIffReadable(e, rows[n]);
      UnopenedNext(e, rows, n);
    }
  }

  lemma SweptMeans(e: Encryptor, limit: nat, before: seq<Row>, after: seq<Row>)
    requires Swept(e, limit, before, after)
    ensures LegacyCount(e, before[..BatchSize(before, limit)]) == |Rewritten(before, after)|
    ensures UnreadableCount(e, before[..BatchSize(before, limit)]) ==
            |Unopened(e, if limit < |before| then before[..limit] else before)|
    ensures forall i | 0 <= i < |before| && (i >= limit || !OpensWith(e, before[i])) :: after[i] == before[i]
    ensures forall i | 0 <= i < |before| && i < limit && OpensWith(e, before[i]) ::
              |after[i]| == |before[i]|
              && forall j | 0 <= j < |before[i]| :: SealedAnew(e.active, before[i][j], after[i][j])
  {
    var n := BatchSize(before, limit);
    LegacyIsRewritten(e, before[..n], after[..n]);
    assert Rewritten(before, after) == Rewritten(before[..n], after[..n]);
    UnreadableIsUnopened(e, before[..n]);
    assert before[..n] == if limit < |before| then before[..limit] else before;
    forall i | 0 <= i < n
      ensures if OpensWith(e, before[i])
              then |after[i]| == |before[i]|
                   && forall j | 0 <= j < |before[i]| :: SealedAnew(e.active, before[i][j], after[i][j])
              else after[i] == before[i]
    {
      RowSweptMeans(e, before[i], after[i]);
    }
  }

  /** One transaction over one table. */
  method SweepBatch(e: Encryptor, rows0: seq<Row>, limit: nat, nonces: seq<int>)
    returns (rows: seq<Row>, reencrypted: nat, errors: nat)
    requires |nonces| >= limit
    modifies e`fallbacks
    ensures Swept(e, limit, rows0, rows) && e.fallbacks == old(e.fallbacks)
    ensures reencrypted == LegacyCount(e, rows0[..BatchSize(rows0, limit)])
    ensures errors == UnreadableCount(e, rows0[..BatchSize(rows0, limit)])
    ensures |rows| == |rows0| && reencrypted == |Rewritten(rows0, rows)|
    ensures errors == |Unopened(e, if limit < |rows0| then rows0[..limit] else rows0)|
    ensures forall i | 0 <= i < |rows0| && (i >= limit || !OpensWith(e, rows0[i])) :: rows[i] == rows0[i]
    ensures forall i | 0 <= i < |rows0| && i < limit && OpensWith(e, rows0[i]) ::
              |rows[i]| == |rows0[i]|
              && forall j | 0 <= j < |rows0[i]| :: SealedAnew(e.active, rows0[i][j], rows[i][j])
  {
    var n := BatchSize(rows0, limit);
    rows, reencrypted, errors := rows0, 0, 0;
    for i := 0 to n
      invariant |rows| == |rows0| && e.fallbacks == old(e.fallbacks)
      invariant forall j | 0 <= j < i :: RowSwept(e, rows0[j], rows[j])
      invariant forall j | i <= j < |rows0| :: rows[j] == rows0[j]
      invariant reencrypted == LegacyCount(e, rows0[..i]) && errors == UnreadableCount(e, rows0[..i])
    {
      assert rows0[..i + 1][..i] == rows0[..i];
      var row := ReencryptRow(e, rows0[i], nonces[i]);
      if row.None? {
        errors := errors + 1;
        continue;
      }
      if row.value == rows0[i] {
        continue;
      }
      rows := rows[i := row.value];
      reencrypted := reencrypted + 1;
    }
    SweptMeans(e, limit, rows0, rows);
  }

  // ---- what a sweep preserves ----

  lemma FieldMeaning(e: Encryptor, before: Text, after: Text)
    requires FieldResealed(e.active, before, after) && FieldReadable(e.Keys(), before)
    ensures Opened(e.Keys(), after) == Opened(e.Keys(), before)
    ensures FieldReadable([e.active], after)
  {
  }

  /** Every field still decrypts to what it did, and readable rows of the batch need the active key alone. */
  lemma SweepPreservesPlaintexts(e: Encryptor, limit: nat, before: seq<Row>, after: seq<Row>, i: nat)
    requires Swept(e, limit, before, after) && i < |before|
    ensures |after[i]| == |before[i]|
    ensures forall j | 0 <= j < |before[i]| :: Opened(e.Keys(), after[i][j]) == Opened(e.Keys(), before[i][j])
    ensures i < limit && Readable(e.Keys(), before[i]) ==> Readable([e.active], after[i])
    ensures Readable(e.Keys(), after[i]) <==> Readable(e.Keys(), before[i])
  {
    if i < limit && Readable(e.Keys(), before[i]) {
      forall j | 0 <= j < |before[i]|
        ensures Opened(e.Keys(), after[i][j]) == Opened(e.Keys(), before[i][j])
        ensures FieldReadable([e.active], after[i][j]) && FieldReadable(e.Keys(), after[i][j])
      {
        assert before[i][j] in before[i];
        FieldMeaning(e, before[i][j], after[i][j]);
      }
    }
  }

  lemma ResealedNotLegacy(e: Encryptor, before: Row, after: Row)
    requires Resealed(e.active, before, after)
    ensures !Legacy(e.active, after)
  {
    forall t | t in after && t.Sealed?
      ensures t.key == e.active
    {
      var i :| 0 <= i < |after| && after[i] == t;
      assert FieldResealed(e.active, before[i], after[i]);
    }
  }

  /** A second pass finds nothing left to re-seal, and the same rows unreadable. */
  lemma {:induction false} SecondPass(e: Encryptor, before: seq<Row>, after: seq<Row>)
    requires |after| == |before| && forall i | 0 <= i < |before| :: RowSwept(e, before[i], after[i])
    ensures LegacyCount(e, after) == 0 && UnreadableCount(e, after) == UnreadableCount(e, before)
  {
    if before != [] {
      var n := |before| - 1;
      SecondPass(e, before[..n], after[..n]);
      assert RowSwept(e, before[n], after[n]);
      SweepPreservesPlaintexts(e, n + 1, before, after, n);
      if Readable(e.Keys(), before[n]) {
        ResealedNotLegacy(e, before[n], after[n]);
      }
    }
  }

  lemma {:induction false} CountsBounded(e: Encryptor, rows: seq<Row>)
    ensures LegacyCount(e, rows) + UnreadableCount(e, rows) <= |rows|
    ensures UnreadableCount(e, rows) == |rows| <==> forall r | r in rows :: !Readable(e.Keys(), r)
  {
    if rows != [] {
      var n := |rows| - 1;
      CountsBounded(e, rows[..n]);
      assert rows == rows[..n] + [rows[n]];
    }
  }

  /** The first `limit` rows exist and no key opens any of them. */
  predicate Stuck(e: Encryptor, rows: seq<Row>, limit: nat) {
    limit <= |rows| && forall i | 0 <= i < limit :: !Readable(e.Keys(), rows[i])
  }

  lemma StuckIffAllErrors(e: Encryptor, rows: seq<Row>, limit: nat)
    ensures Stuck(e, rows, limit) <==> UnreadableCount(e, rows[..BatchSize(rows, limit)]) == limit
  {
    var batch := rows[..BatchSize(rows, limit)];
    CountsBounded(e, batch);
    if Stuck(e, rows, limit) {
      forall r | r in batch
        ensures !Readable(e.Keys(), r)
      {
        var i :| 0 <= i < |batch| && batch[i] == r;
      }
    } else if limit <= |rows| {
      var i :| 0 <= i < limit && Readable(e.Keys(), rows[i]);
      assert batch[i] in batch;
    }
  }

  lemma SweptTwice(e: Encryptor, limit: nat, a: seq<Row>, b: seq<Row>, c: seq<Row>)
    requires Swept(e, limit, a, b) && Swept(e, limit, b, c)
    ensures Swept(e, limit, a, c)
  {
    forall i | 0 <= i < BatchSize(a, limit)
      ensures RowSwept(e, a[i], c[i])
    {
      SweepPreservesPlaintexts(e, limit, a, b, i);
      assert RowSwept(e, b[i], c[i]);
    }
  }

  /**
   * The loop over one table, for a worker that lives for `passes` passes: it ends by itself, after at
   * most two passes, exactly when some row of the first batch is readable or the batch is not full.
   */
  method SweepTable(e: Encryptor, rows0: seq<Row>, batchSize: nat, passes: nat, nonces: seq<int>)
    returns (rows: seq<Row>, done: bool, total: nat)
    requires batchSize > 0 && |nonces| >= batchSize
    modifies e`fallbacks
    ensures passes > 0 ==> Swept(e, batchSize, rows0, rows)
    ensures e.fallbacks == old(e.fallbacks)
    ensures Stuck(e, rows0, batchSize) ==> !done
    ensures !Stuck(e, rows0, batchSize) && passes >= 2 ==> done
    ensures passes > 0 ==> total == LegacyCount(e, rows0[..BatchSize(rows0, batchSize)])
    ensures |rows| == |rows0| && total == |Rewritten(rows0, rows)|
  {
    rows, done, total := rows0, false, 0;
    ghost var n := BatchSize(rows0, batchSize);
    StuckIffAllErrors(e, rows0, batchSize);
    assert Rewritten(rows0, rows0) == {};
    for i := 0 to passes
      invariant !done && e.fallbacks == old(e.fallbacks)
      invariant |rows| == |rows0| && total == |Rewritten(rows0, rows)|
      invariant i == 0 ==> rows == rows0 && total == 0
      invariant i > 0 ==> Swept(e, batchSize, rows0, rows) && total == LegacyCount(e, rows0[..n])
      invariant i > 1 ==> Stuck(e, rows0, batchSize)
    {
      ghost var before := rows;
      var reencrypted, errors;
      rows, reencrypted, errors := SweepBatch(e, rows, batchSize, nonces);
      total := total + reencrypted;
      if i > 0 {
        SecondPass(e, rows0[..n], before[..n]);
        SweptTwice(e, batchSize, rows0, before, rows);
      }
      SweptMeans(e, batchSize, rows0, rows);
      if reencrypted + errors < batchSize {
        done := true;
        return;
      }
      CountsBounded(e, before[..n]);
    }
  }

  /**
   * After a finished sweep every readable row of the table can do without the previous keys exactly if,
   * past the first batch, every readable row could before: the sweep does not get past its first batch.
   */
  lemma ConvergedIff(e: Encryptor, limit: nat, before: seq<Row>, after: seq<Row>)
    requires Swept(e, limit, before, after)
    ensures (forall i | 0 <= i < |after| :: Readable(e.Keys(), after[i]) ==> Readable([e.active], after[i])) <==>
            (forall i | limit <= i < |before| :: Readable(e.Keys(), before[i]) ==> Readable([e.active], before[i]))
  {
    forall i | 0 <= i < |before|
      ensures i < limit && Readable(e.Keys(), after[i]) ==> Readable([e.active], after[i])
    {
      SweepPreservesPlaintexts(e, limit, before, after, i);
    }
  }

  /** Nor does any number of sweeps: a row past the first batch is never rewritten. */
  lemma {:induction false} NeverReached(e: Encryptor, limit: nat, tables: seq<seq<Row>>, k: nat, i: nat)
    requires k < |tables| && limit <= i < |tables[0]|
    requires forall s | 0 <= s < |tables| - 1 :: Swept(e, limit, tables[s], tables[s + 1])
    ensures |tables[k]| == |tables[0]| && tables[k][i] == tables[0][i]
  {
    if k > 0 {
      NeverReached(e, limit, tables, k - 1, i);
      assert Swept(e, limit, tables[k - 1], tables[k - 1 + 1]);
    }
  }

  // ---- the three tables ----

  class Credentials {
    const encryptor: Encryptor
    var psp: seq<Row>
    var notifications: seq<Row>
    var auth: seq<Row>

    constructor (e: Encryptor)
      ensures encryptor == e && psp == [] && notifications == [] && auth == []
    {
      encryptor, psp, notifications, auth := e, [], [], [];
    }

    /** A table whose loop does not end keeps the later tables from being swept at all. */
    method ReencryptLegacyCiphertexts(batchSize: int, passes: nat, nonces: seq<int>) returns (done: bool, total: nat)
      requires passes >= 2 && |nonces| >= Batch(batchSize)
      modifies this, encryptor`fallbacks
      ensures var size := Batch(batchSize);
              && Swept(encryptor, size, old(psp), psp)
              && (done <==> !Stuck(encryptor, old(psp), size) && !Stuck(encryptor, old(notifications), size)
                            && !Stuck(encryptor, old(auth), size))
              && (done ==> Swept(encryptor, size, old(notifications), notifications))
              && (done ==> Swept(encryptor, size, old(auth), auth))
              && (Stuck(encryptor, old(psp), size) ==> notifications == old(notifications) && auth == old(auth))
              && (Stuck(encryptor, old(notifications), size) ==> auth == old(auth))
      ensures encryptor.fallbacks == old(encryptor.fallbacks)
      ensures |psp| == |old(psp)| && |notifications| == |old(notifications)| && |auth| == |old(auth)|
      ensures total == |Rewritten(old(psp), psp)| + |Rewritten(old(notifications), notifications)|
                       + |Rewritten(old(auth), auth)|
      ensures forall i | 0 <= i < |psp| ::
                if i < (if batchSize > 0 then batchSize else 100) && OpensWith(encryptor, old(psp)[i])
                then |psp[i]| == |old(psp)[i]|
                     && forall j | 0 <= j < |psp[i]| :: SealedAnew(encryptor.active, old(psp)[i][j], psp[i][j])
                else psp[i] == old(psp)[i]
    {
      ghost var psp0 := psp;
      assert Rewritten(notifications, notifications) == {} && Rewritten(auth, auth) == {};
      var size, n := Batch(batchSize), 0;
      psp, done, total := SweepTable(encryptor, psp, size, passes, nonces);
      SweptMeans(encryptor, size, psp0, psp);
      if !done {
        return;
      }
      notifications, done, n := SweepTable(encryptor, notifications, size, passes, nonces);
      total := total + n;
      if !done {
        return;
      }
      auth, done, n := SweepTable(encryptor, auth, size, passes, nonces);
      total := total + n;
    }
  }

  const DEFAULT_BATCH: nat := 100

  function Batch(batchSize: int): (n: nat)
    ensures n > 0
  {
    if batchSize <= 0 then DEFAULT_BATCH else batchSize
  }
}
