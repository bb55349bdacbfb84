/** The two maintenance scripts over the vendor table: encrypting legacy rows in key order, and
    moving encrypted rows to a new key version.  Between any two database statements of a script
    other clients may write; `others(t)` is what they write at the script's t-th pause. */
module BankMigration {
  import opened Options
  import opened BankCodec

  datatype Write = Write(id: nat, details: Option<string>)

  type Table = seq<Option<string>>

  const V1 := "v1"

  function Written(rows: Table, writes: seq<Write>): (after: Table)
    ensures |after| == |rows|
    decreases |writes|
  {
    if writes == [] then rows
    else if writes[0].id < |rows| then Written(rows[writes[0].id := writes[0].details], writes[1..])
    else Written(rows, writes[1..])
  }

  /** What a reader of the row gets. */
  function View(keys: Keys, details: Option<string>): Outcome<Option<string>> {
    Decrypt(keys, details)
  }

  ghost predicate SameViews(keys: Keys, rows: Table, alone: Table) {
    && |rows| == |alone|
    && forall id :: 0 <= id < |rows| ==> View(keys, rows[id]) == View(keys, alone[id])
  }

  ghost predicate Quiet(others: nat -> seq<Write>) {
    forall t :: others(t) == []
  }

  lemma {:induction false} WrittenKeepsSameViews(keys: Keys, rows: Table, alone: Table, writes: seq<Write>)
    requires SameViews(keys, rows, alone)
    ensures SameViews(keys, Written(rows, writes), Written(alone, writes))
    decreases |writes|
  {
    if writes != [] {
      if writes[0].id < |rows| {
        WrittenKeepsSameViews(keys, rows[writes[0].id := writes[0].details], alone[writes[0].id := writes[0].details], writes[1..]);
      } else {
        WrittenKeepsSameViews(keys, rows, alone, writes[1..]);
      }
    }
  }

  // ---------------------------------------------- backfill: which rows

  /** The query filter: a value that is not tagged v1. */
  predicate Unmigrated(details: Option<string>) {
    details.Some? && !Tagged(details.value, V1)
  }

  /** A row the script has to encrypt. */
  predicate Plain(details: Option<string>) {
    Unmigrated(details) && !IsBlank(details.value)
  }

  /** A row that encrypting leaves the same to its readers. */
  predicate Fit(keys: Keys, details: Option<string>) {
    Plain(details) && Prefixed(details.value) ==> Tagged(details.value, keys.active)
  }

  ghost predicate AllFit(keys: Keys, rows: Table) {
    forall id :: 0 <= id < |rows| ==> Fit(keys, rows[id])
  }

  ghost predicate WritesFit(keys: Keys, writes: seq<Write>) {
    forall k :: 0 <= k < |writes| ==> Fit(keys, writes[k].details)
  }

  ghost predicate OthersFit(keys: Keys, others: nat -> seq<Write>) {
    forall t :: WritesFit(keys, others(t))
  }

  ghost predicate Ready(keys: Keys) {
    Sound(keys.cipher) && keys.active in keys.registry && keys.active != "" && Colons(keys.active) == 0
  }

  lemma {:induction false} WrittenKeepsFit(keys: Keys, rows: Table, writes: seq<Write>)
    requires AllFit(keys, rows) && WritesFit(keys, writes)
    ensures AllFit(keys, Written(rows, writes))
    decreases |writes|
  {
    if writes != [] {
      assert Fit(keys, writes[0].details);
      assert WritesFit(keys, writes[1..]);
      if writes[0].id < |rows| {
        WrittenKeepsFit(keys, rows[writes[0].id := writes[0].details], writes[1..]);
      } else {
        WrittenKeepsFit(keys, rows, writes[1..]);
      }
    }
  }

  /** What the backfill writes into a plain row. */
  function Migrated(keys: Keys, details: Option<string>, iv: Bytes): Outcome<Option<string>> {
    Encrypt(keys, details, None, iv)
  }

  /** One row of the backfill keeps its meaning exactly if it is fit. */
  lemma MigratedKeepsViewIff(keys: Keys, details: Option<string>, iv: Bytes)
    requires Ready(keys) && Plain(details)
    ensures Migrated(keys, details, iv).Value? && Migrated(keys, details, iv).value.Some?
    ensures View(keys, Migrated(keys, details, iv).value) == View(keys, details) <==> Fit(keys, details)
    ensures Tagged(Migrated(keys, details, iv).value.value, keys.active)
    ensures Fit(keys, Migrated(keys, details, iv).value)
  {
    EncryptStoredIff(keys, details.value, None, iv);
    if !Tagged(details.value, keys.active) {
      FormatColons(keys.active, iv, keys.cipher.seal(keys.registry[keys.active], iv, details.value));
    }
  }

  /** The keyset query: ids from `start` on, in order, at most `limit` of them. */
  function Page(rows: Table, start: nat, limit: nat): (ids: seq<nat>)
    requires start <= |rows|
    ensures |ids| <= limit
    ensures forall k :: 0 <= k < |ids| ==> start <= ids[k] < |rows| && Unmigrated(rows[ids[k]])
    ensures forall j, k :: 0 <= j < k < |ids| ==> ids[j] < ids[k]
    ensures forall id :: start <= id < |rows| && Unmigrated(rows[id]) && id !in ids
              ==> |ids| == limit && forall k :: 0 <= k < |ids| ==> ids[k] < id
    decreases |rows| - start
  {
    if start == |rows| || limit == 0 then []
    else if Unmigrated(rows[start]) then [start] + Page(rows, start + 1, limit - 1)
    else Page(rows, start + 1, limit)
  }

  function PlainCount(rows: Table): (n: nat)
    ensures n == 0 <==> forall id :: 0 <= id < |rows| ==> !Plain(rows[id])
  {
    if rows == [] then 0
    else
      var init := rows[..|rows| - 1];
      assert forall id :: 0 <= id < |rows| ==> rows[id] == if id < |init| then init[id] else rows[|rows| - 1];
      PlainCount(init) + if Plain(rows[|rows| - 1]) then 1 else 0
  }

  /** Rows whose value some client stored in the form this script writes. */
  function EncryptedCount(rows: Table): nat {
    if rows == [] then 0
    else EncryptedCount(rows[..|rows| - 1])
         + var last := rows[|rows| - 1]; if last.Some? && Tagged(last.value, V1) then 1 else 0
  }

  lemma PlainCountNext(rows: Table, n: nat)
    requires n < |rows|
    ensures PlainCount(rows[..n + 1]) == PlainCount(rows[..n]) + if Plain(rows[n]) then 1 else 0
  {
    assert rows[..n + 1][..n] == rows[..n];
  }

  lemma {:induction false} PlainCountGap(rows: Table, n: nat, m: nat)
    requires n <= m <= |rows|
    requires forall id :: n <= id < m ==> !Plain(rows[id])
    ensures PlainCount(rows[..m]) == PlainCount(rows[..n])
    decreases m
  {
    if n < m {
      PlainCountNext(rows, m - 1);
      PlainCountGap(rows, n, m - 1);
    }
  }

  ghost predicate IsPage(rows: Table, ids: seq<nat>, start: nat) {
    && start <= |rows|
    && (forall k :: 0 <= k < |ids| ==> start <= ids[k] < |rows| && Unmigrated(rows[ids[k]]))
    && (forall j, k :: 0 <= j < k < |ids| ==> ids[j] < ids[k])
    && (forall id, k :: start <= id < |rows| && Unmigrated(rows[id]) && id !in ids && 0 <= k < |ids| ==> ids[k] < id)
  }

  ghost predicate SameFrom(rows: Table, other: Table, start: nat) {
    |rows| == |other| && forall id :: start <= id < |rows| ==> rows[id] == other[id]
  }

  datatype Counts = Counts(done: nat, skipped: nat, failed: nat)

  // ---------------------------------------------- backfill: what must stay true

  /** Readers cannot tell the table from the one without the script. */
  ghost predicate Invisible(keys: Keys, rows: Table, alone: Table) {
    SameViews(keys, rows, alone) && AllFit(keys, rows)
  }

  ghost predicate MigratedForm(keys: Keys, before: Option<string>, after: Option<string>) {
    exists iv :: Migrated(keys, before, iv) == Value(after)
  }

  /** Without other writers: the rows before `start` are done, the rest is as it was. */
  ghost predicate MigratedUpTo(keys: Keys, before: Table, rows: Table, start: nat) {
    && |rows| == |before|
    && (forall id :: 0 <= id < |rows| && id < start && Plain(before[id]) ==> MigratedForm(keys, before[id], rows[id]))
    && (forall id :: 0 <= id < |rows| && (id >= start || !Plain(before[id])) ==> rows[id] == before[id])
  }

  /** The same, with the counters; a key that is not registered fails every row. */
  ghost predicate Progress(keys: Keys, before: Table, rows: Table, start: nat, c: Counts) {
    && start <= |before|
    && if keys.active in keys.registry
       then MigratedUpTo(keys, before, rows, start) && c == Counts(PlainCount(before[..start]), 0, 0)
       else rows == before && c == Counts(0, 0, PlainCount(before[..start]))
  }

  lemma ProgressGap(keys: Keys, before: Table, rows: Table, start: nat, next: nat, c: Counts)
    requires Progress(keys, before, rows, start, c) && start <= next <= |before|
    requires forall id :: start <= id < next ==> !Plain(before[id])
    ensures Progress(keys, before, rows, next, c)
  {
    PlainCountGap(before, start, next);
  }

  /** Two tags without colons in their names cannot both start one value. */
  lemma TagIsUnique(s: string, v: string)
    requires Tagged(s, v) && Colons(v) == 0
    ensures Tagged(s, V1) <==> v == V1
  {
    if Tagged(s, V1) {
      var t, u := Tag(v), Tag(V1);
      assert forall i :: 0 <= i < |t| && i < |u| ==> t[i] == s[i] == u[i];
      assert forall i :: 0 <= i < |v| ==> t[4 + i] == v[i];
      assert u == "enc:v1:" && t[4 + |v|] == ':' && u[6] == ':';
      NoColonInside(v);
      assert |v| == 2 && v[0] == u[4] && v[1] == u[5];
      assert v == V1;
    }
  }

  lemma {:induction false} NoColonInside(s: string)
    requires Colons(s) == 0
    ensures forall i :: 0 <= i < |s| ==> s[i] != ':'
  {
    if s != "" {
      NoColonInside(s[1..]);
      assert forall i :: 1 <= i < |s| ==> s[i] == s[1..][i - 1];
    }
  }

  /** A finished run leaves nothing to encrypt exactly if it wrote v1 tags or had nothing to do. */
  lemma RemainingAfter(keys: Keys, before: Table, rows: Table)
    requires Ready(keys) && MigratedUpTo(keys, before, rows, |before|)
    ensures PlainCount(rows) == if keys.active == V1 then 0 else PlainCount(before)
    ensures PlainCount(rows) == 0 <==> keys.active == V1 || PlainCount(before) == 0
  {
    forall id | 0 <= id < |rows| ensures Plain(rows[id]) <==> Plain(before[id]) && keys.active != V1 {
      if Plain(before[id]) {
        var iv :| Migrated(keys, before[id], iv) == Value(rows[id]);
        MigratedKeepsViewIff(keys, before[id], iv);
        TagIsUnique(rows[id].value, keys.active);
        TaggedIsPrefixed(rows[id].value, keys.active);
        PrefixedIsNotBlank(rows[id].value);
      }
    }
    if keys.active != V1 {
      SameCount(rows, before);
    }
  }

  /** What a finished backfill makes of a value: absent, blank and v1 ones stay, everything else is under
      the active version, and what was legacy text reads as before. */
  predicate Backfilled(keys: Keys, d: Option<string>, after: Option<string>) {
    if d.None? || IsBlank(d.value) || Starts(d.value, "enc:v1:") then after == d
    else && after.Some? && Starts(after.value, "enc:" + keys.active + ":")
         && (!Starts(d.value, "enc:") ==> Decrypt(keys, after) == Value(d))
  }

  ghost predicate BackfillDone(keys: Keys, before: Table, rows: Table) {
    |rows| == |before| && forall id :: 0 <= id < |rows| ==> Backfilled(keys, before[id], rows[id])
  }

  lemma MigratedIsBackfilled(keys: Keys, d: Option<string>, after: Option<string>, iv: Bytes)
    requires Ready(keys) && Plain(d) && Migrated(keys, d, iv) == Value(after)
    ensures Backfilled(keys, d, after)
  {
    MigratedKeepsViewIff(keys, d, iv);
    StartsIsTagged(after.value, keys.active);
    StartsIsTagged(d.value, V1);
    assert "enc:v1:" == "enc:" + V1 + ":";
    if !Prefixed(d.value) {
      assert Decrypt(keys, d) == Value(d);
    }
  }

  lemma MigratedIsDone(keys: Keys, before: Table, rows: Table)
    requires Ready(keys) && MigratedUpTo(keys, before, rows, |before|)
    ensures BackfillDone(keys, before, rows)
  {
    forall id | 0 <= id < |rows| ensures Backfilled(keys, before[id], rows[id]) {
      if Plain(before[id]) {
        assert MigratedForm(keys, before[id], rows[id]);
        var iv :| Migrated(keys, before[id], iv) == Value(rows[id]);
        MigratedIsBackfilled(keys, before[id], rows[id], iv);
      } else {
        assert rows[id] == before[id];
      }
    }
  }

  lemma {:induction false} SameCount(rows: Table, other: Table)
    requires |rows| == |other| && forall id :: 0 <= id < |rows| ==> (Plain(rows[id]) <==> Plain(other[id]))
    ensures PlainCount(rows) == PlainCount(other)
    decreases |rows|
  {
    if rows != [] {
      SameCount(rows[..|rows| - 1], other[..|rows| - 1]);
    }
  }

  // ---------------------------------------------- rotation: which rows

  /** Encrypted, but not under the target version. */
  predicate NeedsRotation(details: Option<string>, target: string) {
    details.Some? && Prefixed(details.value) && !Tagged(details.value, target)
  }

  function Outdated(rows: Table, target: string, from: nat): (ids: seq<nat>)
    requires from <= |rows|
    ensures forall id :: id in ids <==> from <= id < |rows| && NeedsRotation(rows[id], target)
    ensures forall k :: 0 <= k < |ids| ==> from <= ids[k] < |rows|
    ensures forall j, k :: 0 <= j < k < |ids| ==> ids[j] < ids[k]
    decreases |rows| - from
  {
    if from == |rows| then []
    else if NeedsRotation(rows[from], target) then [from] + Outdated(rows, target, from + 1)
    else Outdated(rows, target, from + 1)
  }

  ghost predicate RotationReady(keys: Keys, target: string) {
    Sound(keys.cipher) && target in keys.registry && target != "" && Colons(target) == 0
  }

  /** Decrypts to something that is not blank. */
  predicate Readable(keys: Keys, details: Option<string>) {
    View(keys, details).Value? && !Empty(View(keys, details).value)
  }

  /** What the row decrypts to, if anything, does not itself look like a value of the target version. */
  predicate Sane(keys: Keys, target: string, details: Option<string>) {
    Readable(keys, details) ==> !Tagged(View(keys, details).value.value, target)
  }

  ghost predicate AllSane(keys: Keys, target: string, rows: Table) {
    forall id :: 0 <= id < |rows| && NeedsRotation(rows[id], target) ==> Sane(keys, target, rows[id])
  }

  lemma RotatedKeepsView(keys: Keys, target: string, details: Option<string>, iv: Bytes)
    requires RotationReady(keys, target) && Sane(keys, target, details)
    requires Reencrypt(keys, details, target, iv).Value? && Reencrypt(keys, details, target, iv).value.Some?
    ensures View(keys, Reencrypt(keys, details, target, iv).value) == View(keys, details)
  {
    ReencryptIff(keys, details.value, target, iv, View(keys, details).value.value);
  }

  /** Of the first `k` selected rows the readable ones carry the target tag; all other rows are as
      they were. */
  ghost predicate RotatedUpTo(keys: Keys, target: string, before: Table, rows: Table, ids: seq<nat>, k: nat) {
    && k <= |ids| && |rows| == |before| && (forall j :: 0 <= j < |ids| ==> ids[j] < |rows|)
    && (forall j :: 0 <= j < k && Readable(keys, before[ids[j]])
          ==> rows[ids[j]].Some? && Tagged(rows[ids[j]].value, target))
    && (forall id :: 0 <= id < |rows| && (id !in ids[..k] || !Readable(keys, before[id])) ==> rows[id] == before[id])
  }

  ghost predicate RotationProgress(keys: Keys, target: string, before: Table, rows: Table, ids: seq<nat>, k: nat, c: Counts) {
    && RotatedUpTo(keys, target, before, rows, ids, k) && c.skipped == 0
    && (c.failed == 0 <==> forall j :: 0 <= j < k ==> Readable(keys, before[ids[j]]))
  }

  lemma RotationStart(keys: Keys, target: string, before: Table, ids: seq<nat>)
    requires ids == Outdated(before, target, 0)
    ensures RotationProgress(keys, target, before, before, ids, 0, Counts(0, 0, 0))
  {}

  /** The selected row `k` is handled: moved if it is readable, counted as failed if not. */
  lemma RotationStep(keys: Keys, target: string, before: Table, was: Table, rows: Table, ids: seq<nat>, k: nat, iv: Bytes,
                     had: Counts, next: Counts)
    requires RotationReady(keys, target) && RotationProgress(keys, target, before, was, ids, k, had)
    requires k < |ids| && (forall j :: 0 <= j < k ==> ids[j] != ids[k])
    requires
      if Readable(keys, before[ids[k]])
      then next == had.(done := had.done + 1) && Reencrypt(keys, before[ids[k]], target, iv).Value?
           && rows == was[ids[k] := Reencrypt(keys, before[ids[k]], target, iv).value]
      else next == had.(failed := had.failed + 1) && rows == was
    ensures RotationProgress(keys, target, before, rows, ids, k + 1, next)
  {
    assert ids[..k + 1] == ids[..k] + [ids[k]];
    if Readable(keys, before[ids[k]]) {
      ReencryptTags(keys, before[ids[k]], target, iv);
    }
  }

  /** What a finished rotation makes of a value: encrypted ones of other versions that can be read are
      under the target version, everything else stays. */
  predicate Rotated(keys: Keys, target: string, d: Option<string>, after: Option<string>) {
    if d.Some? && Starts(d.value, "enc:") && !Starts(d.value, "enc:" + target + ":")
       && Decrypt(keys, d).Value? && !Empty(Decrypt(keys, d).value)
    then after.Some? && Starts(after.value, "enc:" + target + ":")
    else after == d
  }

  ghost predicate RotationDone(keys: Keys, target: string, before: Table, rows: Table) {
    |rows| == |before| && forall id :: 0 <= id < |rows| ==> Rotated(keys, target, before[id], rows[id])
  }

  lemma RotatedMeans(keys: Keys, target: string, d: Option<string>, after: Option<string>)
    requires if NeedsRotation(d, target) && Readable(keys, d) then after.Some? && Tagged(after.value, target) else after == d
    ensures Rotated(keys, target, d, after)
  {}

  lemma RotatedIsDone(keys: Keys, target: string, before: Table, rows: Table, ids: seq<nat>)
    requires ids == Outdated(before, target, 0) && RotatedUpTo(keys, target, before, rows, ids, |ids|)
    ensures RotationDone(keys, target, before, rows)
  {
    assert ids[..|ids|] == ids;
    forall id | 0 <= id < |rows| ensures Rotated(keys, target, before[id], rows[id]) {
      if id in ids && Readable(keys, before[id]) {
        var j :| 0 <= j < |ids| && ids[j] == id;
      }
      RotatedMeans(keys, target, before[id], rows[id]);
    }
  }

  lemma AllRotated(keys: Keys, target: string, before: Table, rows: Table, ids: seq<nat>)
    requires ids == Outdated(before, target, 0) && RotatedUpTo(keys, target, before, rows, ids, |ids|)
    ensures forall id :: id in Outdated(rows, target, 0) <==> id in ids && !Readable(keys, before[id])
    ensures Outdated(rows, target, 0) == [] <==> forall j :: 0 <= j < |ids| ==> Readable(keys, before[ids[j]])
  {
    var left := Outdated(rows, target, 0);
    assert left != [] ==> left[0] in left;
    assert ids[..|ids|] == ids;
    forall id | 0 <= id < |rows| ensures NeedsRotation(rows[id], target) <==> id in ids && !Readable(keys, before[id]) {
      if id in ids && Readable(keys, before[id]) {
        var j :| 0 <= j < |ids| && ids[j] == id;
        assert Tagged(rows[ids[j]].value, target);
      }
    }
    forall j | 0 <= j < |ids| ensures ids[j] in left <==> !Readable(keys, before[ids[j]]) {}
    if left != [] {
      var j :| 0 <= j < |ids| && ids[j] == left[0];
    }
  }

  class VendorTable {
    var rows: Table
    /** The table as it would be without the script. */
    ghost var alone: Table
    var pauses: nat

    constructor (rows: Table)
      ensures this.rows == rows && alone == rows && pauses == 0
    {
      this.rows, alone, pauses := rows, rows, 0;
    }

    /** One pause of the script: the other clients write. */
    method Pause(others: nat -> seq<Write>)
      modifies this
      ensures rows == Written(old(rows), others(old(pauses))) && alone == Written(old(alone), others(old(pauses)))
      ensures pauses == old(pauses) + 1
    {
      rows := Written(rows, others(pauses));
      alone := Written(alone, others(pauses));
      pauses := pauses + 1;
    }

    /** `updateMany where id and bankDetails = expected`: succeeds only on an unchanged row. */
    method UpdateIfUnchanged(id: nat, expected: Option<string>, next: Option<string>) returns (count: nat)
      requires id < |rows|
      modifies `rows
      ensures count == if old(rows)[id] == expected then 1 else 0
      ensures rows == if count == 1 then old(rows)[id := next] else old(rows)
    {
      if rows[id] == expected {
        rows := rows[id := next];
        return 1;
      }
      return 0;
    }

    /** One row of the batch: encrypt what was read, write it back if the row still holds it. */
    method MigrateRow(keys: Keys, id: nat, found: Option<string>, iv: Bytes, others: nat -> seq<Write>, c: Counts)
      returns (next: Counts)
      requires id < |rows|
      modifies this
      ensures |rows| == old(|rows|)
      ensures Ready(keys) && OthersFit(keys, others) && old(Invisible(keys, rows, alone)) ==> Invisible(keys, rows, alone)
      ensures keys.active !in keys.registry && old(rows == alone) ==> rows == alone
      ensures Quiet(others) ==> alone == old(alone)
      ensures Quiet(others) && old(rows)[id] == found && Plain(found) ==>
                if keys.active in keys.registry
                then rows == old(rows)[id := Migrated(keys, found, iv).value] && next == c.(done := c.done + 1)
                else rows == old(rows) && next == c.(failed := c.failed + 1)
      ensures Quiet(others) && !Plain(found) ==> rows == old(rows) && next == c
      ensures next.done + next.skipped + next.failed <= c.done + c.skipped + c.failed + 1
    {
      next := c;
      if found.None? || IsBlank(found.value) || Tagged(found.value, V1) {
        return;
      }
      var ciphertext := Encrypt(keys, found, None, iv);
      if ciphertext.Failed? {
        next := c.(failed := c.failed + 1);
        return;
      }
      if ciphertext.value.None? {
        return;
      }
      PauseKeepsInvisible(keys, rows, alone, others, pauses);
      Pause(others);
      ghost var paused := rows;
      var count := UpdateIfUnchanged(id, found, ciphertext.value);
      if count > 0 {
        next := c.(done := c.done + 1);
        CasKeepsInvisible(keys, paused, alone, id, iv);
      } else {
        next := c.(skipped := c.skipped + 1);
      }
    }

    /** Row `k` of a page.  `before` is the table as the run found it; `unseen`, `idle` and `quiet`
        are the three situations the run is followed in: no reader can tell, no key is registered,
        nobody else writes. */
    method MigrateNext(keys: Keys, ids: seq<nat>, k: nat, found: Table, start: nat, lastId: nat, iv: Bytes,
                       others: nat -> seq<Write>, c: Counts,
                       ghost before: Table, ghost unseen: bool, ghost idle: bool, ghost quiet: bool)
      returns (next: Counts)
      requires |rows| == |found| == |before| && IsPage(found, ids, start) && k < |ids|
      requires lastId == if k == 0 then start else ids[k - 1] + 1
      requires unseen ==> Ready(keys) && OthersFit(keys, others) && Invisible(keys, rows, alone)
      requires idle ==> keys.active !in keys.registry && rows == alone
      requires quiet ==> Quiet(others) && SameFrom(found, before, start) && Progress(keys, before, rows, lastId, c)
      modifies this
      ensures |rows| == old(|rows|)
      ensures unseen ==> Invisible(keys, rows, alone)
      ensures idle ==> rows == alone
      ensures quiet ==> alone == old(alone) && Progress(keys, before, rows, ids[k] + 1, next)
    {
      ghost var was := rows;
      if quiet {
        SkipsNothing(keys, before, found, rows, ids, start, k, lastId, c);
      }
      next := MigrateRow(keys, ids[k], found[ids[k]], iv, others, c);
      if quiet {
        RowProgress(keys, before, was, rows, ids[k], iv, c, next);
      }
    }

    /** One page, row by row. */
    method MigratePage(keys: Keys, ids: seq<nat>, found: Table, start: nat, ivs: nat -> Bytes, others: nat -> seq<Write>,
                       c: Counts, ghost before: Table, ghost unseen: bool, ghost idle: bool, ghost quiet: bool)
      returns (lastId: nat, next: Counts)
      requires |rows| == |found| == |before| && IsPage(found, ids, start)
      requires unseen ==> Ready(keys) && OthersFit(keys, others) && Invisible(keys, rows, alone)
      requires idle ==> keys.active !in keys.registry && rows == alone
      requires quiet ==> Quiet(others) && SameFrom(found, before, start) && Progress(keys, before, rows, start, c)
      modifies this
      ensures |rows| == old(|rows|) && start <= lastId <= |rows|
      ensures lastId == if ids == [] then start else ids[|ids| - 1] + 1
      ensures unseen ==> Invisible(keys, rows, alone)
      ensures idle ==> rows == alone
      ensures quiet ==> alone == old(alone) && Progress(keys, before, rows, lastId, next)
    {
      lastId, next := start, c;
      var k := 0;
      while k < |ids|
        invariant k <= |ids| && |rows| == |found|
        invariant lastId == if k == 0 then start else ids[k - 1] + 1
        invariant unseen ==> Invisible(keys, rows, alone)
        invariant idle ==> rows == alone
        invariant quiet ==> alone == old(alone) && Progress(keys, before, rows, lastId, next)
      {
        next := MigrateNext(keys, ids, k, found, start, lastId, ivs(pauses), others, next, before, unseen, idle, quiet);
        lastId := ids[k] + 1;
        k := k + 1;
      }
    }

    /** The keyset loop: page after page, each starting behind the last row of the one before. */
    method MigrateAll(keys: Keys, batchSize: nat, ivs: nat -> Bytes, others: nat -> seq<Write>) returns (c: Counts)
      modifies this
      ensures |rows| == old(|rows|)
      ensures Ready(keys) && OthersFit(keys, others) && old(Invisible(keys, rows, alone)) ==> Invisible(keys, rows, alone)
      ensures keys.active !in keys.registry && old(rows == alone) ==> rows == alone
      ensures Quiet(others) ==> alone == old(alone)
      ensures Quiet(others) && batchSize >= 1 ==> Progress(keys, old(rows), rows, |rows|, c)
    {
      ghost var before := rows;
      ghost var unseen := Ready(keys) && OthersFit(keys, others) && Invisible(keys, rows, alone);
      ghost var idle := keys.active !in keys.registry && rows == alone;
      ghost var quiet := Quiet(others);
      c := Counts(0, 0, 0);
      var start := 0;
      var hasMore := true;
      StartOfRun(keys, before);
      while hasMore
        invariant |rows| == |before| && start <= |rows|
        invariant unseen ==> Invisible(keys, rows, alone)
        invariant idle ==> rows == alone
        invariant quiet ==> alone == old(alone) && Progress(keys, before, rows, start, c) && SameFrom(rows, before, start)
        invariant quiet && !hasMore && batchSize >= 1 ==> Progress(keys, before, rows, |rows|, c)
        decreases |rows| - start, if hasMore then 1 else 0
      {
        PauseKeepsInvisible(keys, rows, alone, others, pauses);
        Pause(others);
        var found := rows;
        var ids := Page(found, start, batchSize);
        if |ids| == 0 {
          if quiet && batchSize >= 1 {
            ProgressGap(keys, before, rows, start, |rows|, c);
          }
          hasMore := false;
          break;
        }
        ghost var from := start;
        start, c := MigratePage(keys, ids, found, start, ivs, others, c, before, unseen, idle, quiet);
        if quiet {
          UntouchedBeyond(keys, before, rows, start, c);
        }
        if |ids| < batchSize {
          if quiet {
            PageWasLast(before, found, ids, from, batchSize);
            ProgressGap(keys, before, rows, start, |rows|, c);
          }
          hasMore := false;
        }
      }
    }

    method Inventory() returns (empty: nat, encrypted: nat, plain: nat)
      ensures plain == PlainCount(rows) && encrypted == EncryptedCount(rows) && empty + encrypted + plain == |rows|
    {
      empty, encrypted, plain := 0, 0, 0;
      assert rows[..|rows|] == rows;
      assert rows[..0] == [];
      for id := 0 to |rows|
        invariant plain == PlainCount(rows[..id]) && encrypted == EncryptedCount(rows[..id])
        invariant empty + encrypted + plain == id
      {
        PlainCountNext(rows, id);
        assert rows[..id + 1][..id] == rows[..id];
        var details := rows[id];
        if details.Some? && Tagged(details.value, V1) {
          TaggedIsPrefixed(details.value, V1);
          PrefixedIsNotBlank(details.value);
        }
        if details.None? || IsBlank(details.value) {
          empty := empty + 1;
        } else if Tagged(details.value, V1) {
          encrypted := encrypted + 1;
        } else {
          plain := plain + 1;
        }
      }
    }

    /** The whole script.  With every value fit, no reader can ever tell whether it ran, whoever
        writes meanwhile; left alone it encrypts every plain row once, and then finds none if the
        active version is v1 and all of them again if it is not. */
    method RunBackfill(keys: Keys, dryRun: bool, batchSize: nat, ivs: nat -> Bytes, others: nat -> seq<Write>)
      returns (plain: nat, c: Counts, remaining: nat)
      modifies this
      ensures |rows| == old(|rows|) && plain == PlainCount(old(rows))
      ensures Ready(keys) && OthersFit(keys, others) && old(rows == alone && AllFit(keys, rows))
              ==> SameViews(keys, rows, alone)
      ensures keys.active !in keys.registry && old(rows == alone) ==> rows == alone
      ensures dryRun ==> (old(rows == alone) ==> rows == alone) && c == Counts(0, 0, 0) && remaining == plain
      ensures Quiet(others) ==> alone == old(alone)
      ensures Quiet(others) && dryRun ==> rows == old(rows)
      ensures Quiet(others) && !dryRun && batchSize >= 1 && Ready(keys)
              ==> MigratedUpTo(keys, old(rows), rows, |rows|) && c == Counts(plain, 0, 0)
                  && BackfillDone(keys, old(rows), rows)
                  && remaining == if keys.active == V1 then 0 else plain
      ensures Quiet(others) && !dryRun && batchSize >= 1 && keys.active !in keys.registry
              ==> rows == old(rows) && c == Counts(0, 0, plain) && remaining == plain
    {
      ghost var before := rows;
      var empty, encrypted;
      empty, encrypted, plain := Inventory();
      c := Counts(0, 0, 0);
      assert before[..|before|] == before;
      if plain > 0 && !dryRun {
        c := MigrateAll(keys, batchSize, ivs, others);
      } else if plain == 0 {
        NothingToDo(keys, before);
      }
      if Ready(keys) && MigratedUpTo(keys, before, rows, |rows|) {
        RemainingAfter(keys, before, rows);
        MigratedIsDone(keys, before, rows);
      }
      PauseKeepsInvisible(keys, rows, alone, others, pauses);
      Pause(others);
      empty, encrypted, remaining := Inventory();
      if dryRun {
        remaining := plain;
      }
    }

    // -------------------------------------------- key rotation

    /** One row of the rotation: re-encrypt what was read, write it back if the row still holds it. */
    method RotateRow(keys: Keys, target: string, id: nat, found: Option<string>, iv: Bytes, dryRun: bool,
                     others: nat -> seq<Write>, c: Counts)
      returns (next: Counts)
      requires id < |rows|
      modifies this
      ensures |rows| == old(|rows|)
      ensures RotationReady(keys, target) && Sane(keys, target, found) && old(SameViews(keys, rows, alone))
              ==> SameViews(keys, rows, alone)
      ensures dryRun ==> rows == old(rows) && alone == old(alone) && next.done == c.done && next.skipped == c.skipped
      ensures !dryRun ==> next.done + next.skipped + next.failed == c.done + c.skipped + c.failed + 1
      ensures !Readable(keys, found) ==> rows == old(rows) && next == c.(failed := c.failed + 1)
      ensures Quiet(others) && old(rows)[id] == found && Readable(keys, found) && RotationReady(keys, target) && !dryRun
              ==> alone == old(alone) && next == c.(done := c.done + 1) && Reencrypt(keys, found, target, iv).Value?
                  && rows == old(rows)[id := Reencrypt(keys, found, target, iv).value]
    {
      next := c;
      var rotated := Reencrypt(keys, found, target, iv);
      if rotated.Failed? || rotated.value.None? {
        next := c.(failed := c.failed + 1);
        return;
      }
      if !dryRun {
        ghost var rows0, alone0 := rows, alone;
        if SameViews(keys, rows0, alone0) {
          WrittenKeepsSameViews(keys, rows0, alone0, others(pauses));
        }
        Pause(others);
        var count := UpdateIfUnchanged(id, found, rotated.value);
        if count == 1 {
          next := c.(done := c.done + 1);
          if RotationReady(keys, target) && Sane(keys, target, found) {
            RotatedKeepsView(keys, target, found, iv);
          }
        } else {
          next := c.(skipped := c.skipped + 1);
        }
      }
    }

    method RotateNext(keys: Keys, target: string, found: Table, ids: seq<nat>, k: nat, iv: Bytes, dryRun: bool,
                      others: nat -> seq<Write>, c: Counts, ghost unseen: bool, ghost quiet: bool)
      returns (next: Counts)
      requires |rows| == |found| && ids == Outdated(found, target, 0) && k < |ids|
      requires unseen ==> RotationReady(keys, target) && AllSane(keys, target, found) && SameViews(keys, rows, alone)
      requires quiet ==> Quiet(others) && !dryRun && RotationReady(keys, target)
                         && RotationProgress(keys, target, found, rows, ids, k, c)
      modifies this
      ensures |rows| == old(|rows|)
      ensures unseen ==> SameViews(keys, rows, alone)
      ensures dryRun ==> rows == old(rows) && next.done == c.done && next.skipped == c.skipped
      ensures !dryRun ==> next.done + next.skipped + next.failed == c.done + c.skipped + c.failed + 1
      ensures quiet ==> RotationProgress(keys, target, found, rows, ids, k + 1, next)
    {
      var id := ids[k];
      ghost var was := rows;
      assert id in ids && id !in ids[..k];
      next := RotateRow(keys, target, id, found[id], iv, dryRun, others, c);
      if quiet {
        RotationStep(keys, target, found, was, rows, ids, k, iv, c, next);
      }
    }

    /** The script: one snapshot, one pass.  No reader can tell whether it ran, whoever writes
        meanwhile; live, every selected row is counted once; left alone it moves every readable one. */
    method RunKeyRotation(keys: Keys, target: string, dryRun: bool, ivs: nat -> Bytes, others: nat -> seq<Write>)
      returns (needsRotation: nat, c: Counts)
      modifies this
      ensures |rows| == old(|rows|) && needsRotation == |Outdated(old(rows), target, 0)|
      ensures RotationReady(keys, target) && AllSane(keys, target, old(rows)) && old(rows == alone)
              ==> SameViews(keys, rows, alone)
      ensures dryRun ==> rows == old(rows) && c.done == 0 && c.skipped == 0
      ensures !dryRun ==> c.done + c.skipped + c.failed == needsRotation
      ensures Quiet(others) && !dryRun && RotationReady(keys, target)
              ==> c.skipped == 0 && RotationDone(keys, target, old(rows), rows)
                  && (forall id :: id in Outdated(rows, target, 0)
                                   <==> id in Outdated(old(rows), target, 0) && !Readable(keys, old(rows)[id]))
                  && (c.failed == 0 <==> Outdated(rows, target, 0) == [])
    {
      var found := rows;
      var ids := Outdated(found, target, 0);
      needsRotation := |ids|;
      c := Counts(0, 0, 0);
      ghost var unseen := RotationReady(keys, target) && AllSane(keys, target, rows) && rows == alone;
      ghost var quiet := Quiet(others) && !dryRun && RotationReady(keys, target);
      RotationStart(keys, target, found, ids);
      var k := 0;
      while k < |ids|
        invariant k <= |ids| && |rows| == |found|
        invariant unseen ==> SameViews(keys, rows, alone)
        invariant dryRun ==> rows == found && c.done == 0 && c.skipped == 0
        invariant !dryRun ==> c.done + c.skipped + c.failed == k
        invariant quiet ==> RotationProgress(keys, target, found, rows, ids, k, c)
      {
        c := RotateNext(keys, target, found, ids, k, ivs(pauses), dryRun, others, c, unseen, quiet);
        k := k + 1;
      }
      if quiet {
        AllRotated(keys, target, found, rows, ids);
        RotatedIsDone(keys, target, found, rows, ids);
      }
    }
  }

  /** Between two rows of a page there is nothing to encrypt. */
  lemma SkipsNothing(keys: Keys, before: Table, found: Table, rows: Table, ids: seq<nat>, start: nat, k: nat, lastId: nat, c: Counts)
    requires IsPage(found, ids, start) && k < |ids| && lastId == (if k == 0 then start else ids[k - 1] + 1)
    requires Progress(keys, before, rows, lastId, c) && SameFrom(found, before, start)
    ensures Progress(keys, before, rows, ids[k], c) && rows[ids[k]] == found[ids[k]]
  {
    forall id | lastId <= id < ids[k] ensures !Plain(before[id]) {
      assert found[id] == before[id];
    }
    ProgressGap(keys, before, rows, lastId, ids[k], c);
  }

  /** Handling the row at the border moves the border by one. */
  lemma RowProgress(keys: Keys, before: Table, was: Table, rows: Table, id: nat, iv: Bytes, had: Counts, next: Counts)
    requires Progress(keys, before, was, id, had) && id < |before|
    requires
      if !Plain(before[id]) then rows == was && next == had
      else if keys.active in keys.registry
      then rows == was[id := Migrated(keys, before[id], iv).value] && next == had.(done := had.done + 1)
      else rows == was && next == had.(failed := had.failed + 1)
    ensures Progress(keys, before, rows, id + 1, next)
  {
    PlainCountNext(before, id);
    if Plain(before[id]) && keys.active in keys.registry {
      assert Migrated(keys, before[id], iv) == Value(rows[id]);
      assert MigratedForm(keys, before[id], rows[id]);
    }
  }

  lemma StartOfRun(keys: Keys, before: Table)
    ensures Progress(keys, before, before, 0, Counts(0, 0, 0)) && SameFrom(before, before, 0)
  {
    assert before[..0] == [];
  }

  lemma UntouchedBeyond(keys: Keys, before: Table, rows: Table, start: nat, c: Counts)
    requires Progress(keys, before, rows, start, c)
    ensures SameFrom(rows, before, start)
  {}

  /** A page that is not full was the last one. */
  lemma PageWasLast(before: Table, found: Table, ids: seq<nat>, start: nat, limit: nat)
    requires SameFrom(found, before, start) && start <= |found| && ids == Page(found, start, limit) && 0 < |ids| < limit
    ensures forall id :: ids[|ids| - 1] + 1 <= id < |before| ==> !Plain(before[id])
  {
    forall id | ids[|ids| - 1] + 1 <= id < |before| ensures !Plain(before[id]) {
      assert id !in ids;
      assert found[id] == before[id];
    }
  }

  lemma NothingToDo(keys: Keys, before: Table)
    requires PlainCount(before) == 0
    ensures MigratedUpTo(keys, before, before, |before|)
  {}

  lemma PauseKeepsInvisible(keys: Keys, rows: Table, alone: Table, others: nat -> seq<Write>, t: nat)
    ensures OthersFit(keys, others) && Invisible(keys, rows, alone)
            ==> Invisible(keys, Written(rows, others(t)), Written(alone, others(t)))
  {
    if OthersFit(keys, others) && Invisible(keys, rows, alone) {
      assert WritesFit(keys, others(t));
      WrittenKeepsSameViews(keys, rows, alone, others(t));
      WrittenKeepsFit(keys, rows, others(t));
    }
  }

  lemma CasKeepsInvisible(keys: Keys, rows: Table, alone: Table, id: nat, iv: Bytes)
    requires id < |rows| && Plain(rows[id]) && keys.active in keys.registry
    ensures Migrated(keys, rows[id], iv).Value?
    ensures Ready(keys) && Invisible(keys, rows, alone)
            ==> Invisible(keys, rows[id := Migrated(keys, rows[id], iv).value], alone)
  {
    if Ready(keys) && Invisible(keys, rows, alone) {
      MigratedKeepsViewIff(keys, rows[id], iv);
    }
  }
}
