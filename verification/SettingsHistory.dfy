/**
 What a history of the settings row may look like: every write starts from the row the last one left,
 revisions rise except where only the override list is rewritten, and conditional writes replace what
 they read. Consequences for the whole history follow from that alone.
 */
module SettingsHistory {
  import opened Prelude
  import F = SettingsFields
  import D = SettingsDrafts
  import opened SettingsProtocol

  predicate Positive(row: Option<Row>) {
    row.Some? ==> row.value.revision > 0
  }

  /** The same row, but for its override list. */
  ghost predicate SameButOverrides(a: Row, b: Row) {
    && a.revision == b.revision && a.seal == b.seal && a.content.secrets == b.content.secrets
    && forall key: F.Name :: key != F.OverridesKey ==> F.Get(a.content.config, key) == F.Get(b.content.config, key)
  }

  /** The same row up to its override list, or no row both times. */
  ghost predicate SameRow(a: Option<Row>, b: Option<Row>) {
    (a.Some? <==> b.Some?) && (a.Some? ==> SameButOverrides(a.value, b.value))
  }

  /** What the row has for an override list, if anything. */
  function ListOf(row: Option<Row>): Option<F.Json> {
    if row.None? then None else F.Get(row.value.content.config, F.OverridesKey)
  }

  /** The same row in every key, its override list included, or no row both times. */
  ghost predicate SameWholeRow(a: Option<Row>, b: Option<Row>) {
    && (a.Some? <==> b.Some?)
    && (a.Some? ==>
          && a.value.revision == b.value.revision && a.value.seal == b.value.seal
          && a.value.content.secrets == b.value.content.secrets
          && forall key: F.Name :: F.Get(a.value.content.config, key) == F.Get(b.value.content.config, key))
  }

  lemma WholeRowIsRowAndList(a: Option<Row>, b: Option<Row>)
    ensures SameWholeRow(a, b) <==> SameRow(a, b) && ListOf(a) == ListOf(b)
  {
  }

  /** How one write moves the row. */
  ghost predicate Linked(kind: Kind, before: Option<Row>, after: Option<Row>) {
    if kind.AttachWrite? then before.Some? && after.Some? && SameButOverrides(before.value, after.value)
    else if after.None? then before.Some? && (kind.RollbackWrite? || kind.RestoreWrite?)
    else after.value.revision > RevisionOf(before)
  }

  /** The row put back holds what was captured, under a later revision, and nothing where nothing was captured. */
  predicate PutsBack(captured: Option<Row>, before: Option<Row>, after: Option<Row>) {
    && before.Some?
    && (if captured.None? then after.None?
        else after.Some? && after.value.content == captured.value.content && after.value.seal == captured.value.seal
             && after.value.revision > before.value.revision)
  }

  predicate CommitGrounded(h: History, k: nat, w: Write)
    requires k <= |h.writes| && w.kind.CommitWrite?
  {
    && w.kind.baseAt <= w.readAt <= k && w.after.Some?
    && RevisionOf(RowAt(h, w.kind.baseAt)) == w.kind.base
    && var read, before := RowAt(h, w.readAt), RowAt(h, k);
       && (read.Some? <==> before.Some?)
       && RevisionOf(read) == RevisionOf(before) == w.kind.base
       && (read.Some? ==> w.after.value.content == D.Committed(read.value.content, w.kind.material))
  }

  predicate RollbackGrounded(h: History, k: nat, w: Write)
    requires k <= |h.writes| && w.kind.RollbackWrite?
  {
    && w.readAt <= w.kind.committedAt < k
    && var committed := h.writes[w.kind.committedAt];
       && committed.kind.CommitWrite? && committed.owner == w.owner && committed.after.Some?
       && committed.kind.baseAt <= w.readAt
       && RowAt(h, k).Some? && RowAt(h, k).value.revision == committed.after.value.revision
       && PutsBack(RowAt(h, w.readAt), RowAt(h, k), w.after)
  }

  predicate SyncGrounded(h: History, k: nat, w: Write)
    requires k <= |h.writes| && w.kind.SyncWrite?
  {
    && w.readAt <= k && w.after.Some?
    && var read, before := RowAt(h, w.readAt), RowAt(h, k);
       && read.Some? && before.Some? && read.value.revision == before.value.revision
       && w.after.value.content == F.Synchronized(read.value.content, w.kind.env)
  }

  predicate RestoreGrounded(h: History, k: nat, w: Write)
    requires k <= |h.writes| && w.kind.RestoreWrite?
  {
    && w.readAt <= w.kind.putAt < k
    && var put := h.writes[w.kind.putAt];
       && put.kind.PutWrite? && put.owner == w.owner && put.after.Some?
       && RowAt(h, k).Some? && RowAt(h, k).value.revision == put.after.value.revision
       && PutsBack(RowAt(h, w.readAt), RowAt(h, k), w.after)
       && !OnlyAttachments(h, w.kind.putAt + 1, k)
  }

  /** What each kind of write promises about the row it replaces. */
  predicate Grounded(h: History, k: nat, w: Write)
    requires k <= |h.writes|
  {
    match w.kind
    case CommitWrite(_, _, _, _) => CommitGrounded(h, k, w)
    case RollbackWrite(_) => RollbackGrounded(h, k, w)
    case SyncWrite(_) => SyncGrounded(h, k, w)
    case RestoreWrite(_) => RestoreGrounded(h, k, w)
    case PutWrite => w.after.Some?
    case AttachWrite => true
  }

  ghost predicate WriteOk(h: History, k: nat)
    requires k < |h.writes|
  {
    Linked(h.writes[k].kind, RowAt(h, k), h.writes[k].after) && Grounded(h, k, h.writes[k])
  }

  ghost predicate HistoryOk(h: History) {
    Positive(h.initial) && forall k :: 0 <= k < |h.writes| ==> WriteOk(h, k)
  }

  predicate Extends(later: History, h: History) {
    later.initial == h.initial && h.writes <= later.writes
  }

  lemma WriteKept(later: History, h: History, k: nat)
    requires Extends(later, h) && k < |h.writes| && WriteOk(h, k)
    ensures WriteOk(later, k)
  {
  }

  /** What a write promises it promises in every extension of the history. */
  lemma GroundedKept(later: History, h: History, w: Write)
    requires Extends(later, h) && Grounded(h, |h.writes|, w)
    ensures Grounded(later, |h.writes|, w)
  {
    if w.kind.RestoreWrite? {
      var j :| w.kind.putAt + 1 <= j < |h.writes| && !h.writes[j].kind.AttachWrite?;
      assert later.writes[j] == h.writes[j];
    }
  }

  /** A write that fits the history keeps it a good one. */
  lemma RecordKeeps(h: History, w: Write)
    requires HistoryOk(h) && Linked(w.kind, RowAt(h, |h.writes|), w.after) && Grounded(h, |h.writes|, w)
    ensures HistoryOk(Record(h, w)) && Extends(Record(h, w), h)
  {
    var later := Record(h, w);
    forall k | 0 <= k < |later.writes| ensures WriteOk(later, k) {
      if k < |h.writes| {
        WriteKept(later, h, k);
      } else {
        GroundedKept(later, h, w);
      }
    }
  }

  // ----- consequences

  /** No write among these leaves the table without a row. */
  predicate NoRemoval(h: History, i: nat, j: nat)
    requires i <= j <= |h.writes|
  {
    forall k :: i <= k < j ==> h.writes[k].after.Some?
  }

  lemma {:induction false} AlwaysPositive(h: History, k: nat)
    requires HistoryOk(h) && k <= |h.writes|
    ensures Positive(RowAt(h, k))
  {
    if k > 0 {
      AlwaysPositive(h, k - 1);
      assert WriteOk(h, k - 1);
    }
  }

  /** Without a removal revisions never fall, and rise with every write that is not an attachment. */
  lemma {:induction false} RevisionsRise(h: History, i: nat, j: nat)
    requires HistoryOk(h) && i <= j <= |h.writes| && NoRemoval(h, i, j)
    ensures RevisionOf(RowAt(h, i)) <= RevisionOf(RowAt(h, j))
    ensures (exists k :: i <= k < j && !h.writes[k].kind.AttachWrite?) ==> RevisionOf(RowAt(h, i)) < RevisionOf(RowAt(h, j))
    decreases j - i
  {
    if i < j {
      RevisionsRise(h, i, j - 1);
      assert WriteOk(h, j - 1);
    }
  }

  predicate OnlyAttachments(h: History, i: nat, j: nat)
    requires i <= j <= |h.writes|
  {
    forall k :: i <= k < j ==> h.writes[k].kind.AttachWrite?
  }

  lemma {:induction false} AttachmentsKeepRow(h: History, i: nat, j: nat)
    requires HistoryOk(h) && i <= j <= |h.writes| && OnlyAttachments(h, i, j) && RowAt(h, i).Some?
    ensures RowAt(h, j).Some? && SameButOverrides(RowAt(h, i).value, RowAt(h, j).value)
    decreases j - i
  {
    if i < j {
      AttachmentsKeepRow(h, i, j - 1);
      assert WriteOk(h, j - 1);
    }
  }

  /** While no row is removed a revision stands for one content, up to the override list. */
  lemma RevisionIdentifiesRow(h: History, i: nat, j: nat)
    requires HistoryOk(h) && i <= j <= |h.writes| && NoRemoval(h, i, j)
    requires RevisionOf(RowAt(h, i)) == RevisionOf(RowAt(h, j))
    ensures OnlyAttachments(h, i, j)
    ensures RowAt(h, i).Some? ==> RowAt(h, j).Some? && SameButOverrides(RowAt(h, i).value, RowAt(h, j).value)
    ensures RowAt(h, i).None? ==> i == j
  {
    RevisionsRise(h, i, j);
    assert i < j ==> WriteOk(h, i);
    if RowAt(h, i).Some? {
      AttachmentsKeepRow(h, i, j);
    }
  }

  /**
   No lost update: between what a commit or a synchronisation read and its write, nobody else wrote
   anything but override lists, and the row it replaced is the row it read up to those.
   */
  lemma NoUpdateIsLost(h: History, k: nat)
    requires HistoryOk(h) && k < |h.writes|
    requires h.writes[k].kind.CommitWrite? || h.writes[k].kind.SyncWrite?
    requires h.writes[k].readAt <= k && NoRemoval(h, h.writes[k].readAt, k)
    ensures OnlyAttachments(h, h.writes[k].readAt, k) && SameRow(RowAt(h, h.writes[k].readAt), RowAt(h, k))
    ensures h.writes[k].after.Some? && h.writes[k].after.value.revision > RevisionOf(RowAt(h, k))
  {
    assert WriteOk(h, k);
    RevisionIdentifiesRow(h, h.writes[k].readAt, k);
  }

  /** While the row is not removed no two commits start from the same base. */
  lemma CommitsDifferInBase(h: History, i: nat, k: nat)
    requires HistoryOk(h) && i < k < |h.writes| && NoRemoval(h, i, k)
    requires h.writes[i].kind.CommitWrite? && h.writes[k].kind.CommitWrite?
    ensures h.writes[i].kind.base != h.writes[k].kind.base
  {
    assert WriteOk(h, i) && WriteOk(h, k);
    RevisionsRise(h, i, k);
  }

  predicate NoAttachment(h: History, i: nat, j: nat)
    requires i <= j <= |h.writes|
  {
    forall k :: i <= k < j ==> !h.writes[k].kind.AttachWrite?
  }

  lemma AttachmentsOrNothing(h: History, i: nat, j: nat)
    requires i <= j <= |h.writes| && OnlyAttachments(h, i, j)
    ensures NoAttachment(h, i, j) <==> i == j
  {
    if i < j {
      assert h.writes[i].kind.AttachWrite?;
    }
  }

  lemma UnattachedIsSame(h: History, base: nat, i: nat, j: nat)
    requires HistoryOk(h) && base <= i <= j <= |h.writes| && NoRemoval(h, base, j) && NoAttachment(h, i, j)
    requires RevisionOf(RowAt(h, base)) == RevisionOf(RowAt(h, j))
    ensures RowAt(h, i) == RowAt(h, j)
  {
    RevisionIdentifiesRow(h, base, j);
    AttachmentsOrNothing(h, i, j);
  }

  /** Where the story of a rollback begins: its draft's base revision being read. */
  function StoryStart(h: History, k: nat): nat
    requires k < |h.writes| && h.writes[k].kind.RollbackWrite?
  {
    var c := h.writes[k].kind.committedAt;
    if c < k && h.writes[c].kind.CommitWrite? then Min(k, h.writes[c].kind.baseAt) else k
  }

  /**
   A rollback takes back exactly its own commit. With no removal since the draft read its base, only
   override lists changed between the commit and the rollback, the row the commit replaced is the
   captured one up to its override list, and that content returns under a larger revision.
   */
  lemma RollbackRestores(h: History, k: nat)
    requires HistoryOk(h) && k < |h.writes| && h.writes[k].kind.RollbackWrite?
    requires NoRemoval(h, StoryStart(h, k), k)
    ensures var c := h.writes[k].kind.committedAt;
            && c < k && h.writes[c].kind.CommitWrite? && h.writes[c].owner == h.writes[k].owner
            && OnlyAttachments(h, c + 1, k)
            && h.writes[k].readAt <= c
            && PutsBack(RowAt(h, h.writes[k].readAt), RowAt(h, k), h.writes[k].after)
            && SameRow(RowAt(h, h.writes[k].readAt), RowAt(h, c))
  {
    assert WriteOk(h, k);
    var c := h.writes[k].kind.committedAt;
    assert WriteOk(h, c);
    var baseAt, readAt := h.writes[c].kind.baseAt, h.writes[k].readAt;
    RevisionIdentifiesRow(h, c + 1, k);
    RevisionsRise(h, baseAt, readAt);
    RevisionsRise(h, readAt, c);
    RevisionIdentifiesRow(h, readAt, c);
  }
}
