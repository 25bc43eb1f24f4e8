/** The audit checklist game (frontend/src/components/AuditGame.tsx): the
    template filters, the category list, the per-item status record with its
    initialisation and toggling, the completed count, and the completion
    payload. The status record `Record<string, boolean>` is a list of
    key/value entries in insertion order with distinct keys. */
module AuditGame {
  import opened Wrappers
  import opened TenantTypes
  import Text
  import opened Sequences

  // ---------------------------------------------------------------------
  // Filters and categories
  // ---------------------------------------------------------------------

  /** `difficultyOptions`. */
  datatype Difficulty = AllDifficulties | Easy | Medium | Hard

  function DifficultyName(d: Difficulty): string {
    match d
    case AllDifficulties => "all"
    case Easy => "easy"
    case Medium => "medium"
    case Hard => "hard"
  }

  /** The filter predicate: difficulty compared on the lower-cased value,
      category compared exactly; "all" matches everything. */
  predicate MatchesFilters(a: AuditTemplate, difficulty: Difficulty, category: string) {
    && (difficulty == AllDifficulties || Text.ToLower(a.difficulty) == DifficultyName(difficulty))
    && (category == "all" || a.category == category)
  }

  /** `filteredAudits`. */
  function FilteredAudits(audits: seq<AuditTemplate>, difficulty: Difficulty, category: string): (r: seq<AuditTemplate>)
    ensures IsSubsequence(r, audits)
    ensures forall a :: a in r <==> a in audits && MatchesFilters(a, difficulty, category)
    ensures difficulty == AllDifficulties && category == "all" ==> r == audits
    ensures forall a :: multiset(r)[a] == if MatchesFilters(a, difficulty, category) then multiset(audits)[a] else 0
  {
    if |audits| == 0 then []
    else
      var rest := FilteredAudits(audits[1..], difficulty, category);
      assert audits == [audits[0]] + audits[1..];
      assert multiset(audits) == multiset{audits[0]} + multiset(audits[1..]);
      if MatchesFilters(audits[0], difficulty, category) then
        assert ([audits[0]] + rest)[1..] == rest;
        assert multiset([audits[0]] + rest) == multiset{audits[0]} + multiset(rest);
        [audits[0]] + rest
      else rest
  }

  predicate NoDuplicates(s: seq<string>) {
    forall i, j :: 0 <= i < j < |s| ==> s[i] != s[j]
  }

  /** `Array.from(new Set(xs))` continued from the values already `seen`:
      each value kept at its first occurrence. */
  function Dedup(xs: seq<string>, seen: seq<string>): (r: seq<string>)
    requires NoDuplicates(seen)
    ensures NoDuplicates(r)
    ensures forall c :: c in r <==> c in seen || c in xs
    ensures |seen| <= |r| && r[..|seen|] == seen
  {
    if |xs| == 0 then seen
    else if xs[0] in seen then Dedup(xs[1..], seen)
    else Dedup(xs[1..], seen + [xs[0]])
  }

  /** The category options: each audit's category once, in order of first
      appearance. */
  function Categories(audits: seq<AuditTemplate>): (r: seq<string>)
    ensures NoDuplicates(r)
    ensures forall c :: c in r <==> exists i :: 0 <= i < |audits| && audits[i].category == c
  {
    var cats := seq(|audits|, i requires 0 <= i < |audits| => audits[i].category);
    assert forall c :: c in cats <==> exists i :: 0 <= i < |audits| && audits[i].category == c by {
      forall c ensures c in cats <==> exists i :: 0 <= i < |audits| && audits[i].category == c {
        if c in cats {
          var i :| 0 <= i < |cats| && cats[i] == c;
          assert audits[i].category == c;
        }
        if exists i :: 0 <= i < |audits| && audits[i].category == c {
          var i :| 0 <= i < |audits| && audits[i].category == c;
          assert cats[i] == c;
        }
      }
    }
    Dedup(cats, [])
  }

  // ---------------------------------------------------------------------
  // The status record
  // ---------------------------------------------------------------------

  datatype Entry = Entry(key: string, done: bool)

  predicate DistinctKeys(es: seq<Entry>) {
    forall i, j :: 0 <= i < j < |es| ==> es[i].key != es[j].key
  }

  /** `record[k]`: None for a key never set. */
  function Lookup(es: seq<Entry>, k: string): Option<bool> {
    if |es| == 0 then None
    else if es[0].key == k then Some(es[0].done)
    else Lookup(es[1..], k)
  }

  /** `record[k] = v`: an existing key keeps its place, a new one goes last. */
  function Put(es: seq<Entry>, k: string, v: bool): (r: seq<Entry>)
    ensures Lookup(r, k) == Some(v)
    ensures forall j :: j != k ==> Lookup(r, j) == Lookup(es, j)
    ensures DistinctKeys(es) ==> DistinctKeys(r)
    ensures forall e :: e in r ==> e in es || e == Entry(k, v)
  {
    if |es| == 0 then [Entry(k, v)]
    else if es[0].key == k then [Entry(k, v)] + es[1..]
    else
      var rest := Put(es[1..], k, v);
      assert DistinctKeys(es) ==> DistinctKeys([es[0]] + rest) by {
        if DistinctKeys(es) {
          forall j | 0 <= j < |rest| ensures rest[j].key != es[0].key {
            assert rest[j] in rest;
            if rest[j].key != k {
              var i :| 0 <= i < |es[1..]| && es[1..][i] == rest[j];
              assert es[i + 1] == rest[j];
            }
          }
          ConsDistinct(es[0], rest);
        }
      }
      [es[0]] + rest
  }

  /** An entry whose key is not among the others may go in front. */
  lemma ConsDistinct(x: Entry, rest: seq<Entry>)
    requires DistinctKeys(rest)
    requires forall j :: 0 <= j < |rest| ==> rest[j].key != x.key
    ensures DistinctKeys([x] + rest)
  {
    forall i, j | 0 <= i < j < |[x] + rest| ensures ([x] + rest)[i].key != ([x] + rest)[j].key {
      if i > 0 {
        assert ([x] + rest)[i] == rest[i - 1];
      }
      assert ([x] + rest)[j] == rest[j - 1];
    }
  }

  lemma LookupIn(es: seq<Entry>, k: string)
    ensures Lookup(es, k).Some? <==> exists e :: e in es && e.key == k
    ensures Lookup(es, k).Some? ==> Entry(k, Lookup(es, k).value) in es
  {
  }

  /** `Boolean(record[k])`. */
  function Checked(es: seq<Entry>, k: string): bool {
    Lookup(es, k).GetOr(false)
  }

  /** `{ ...prev, [k]: !prev[k] }`. */
  function Toggle(es: seq<Entry>, k: string): (r: seq<Entry>)
    ensures Checked(r, k) == !Checked(es, k)
    ensures forall j :: j != k ==> Lookup(r, j) == Lookup(es, j)
    ensures DistinctKeys(es) ==> DistinctKeys(r)
  {
    Put(es, k, !Checked(es, k))
  }

  /** Writing the value already stored changes nothing. */
  lemma {:induction false} PutSame(es: seq<Entry>, k: string, v: bool)
    requires Lookup(es, k) == Some(v)
    ensures Put(es, k, v) == es
  {
    if es[0].key == k {
      assert [Entry(k, v)] + es[1..] == es;
    } else {
      PutSame(es[1..], k, v);
      assert [es[0]] + es[1..] == es;
    }
  }

  /** A second write to a key overrides the first in place. */
  lemma {:induction false} PutPut(es: seq<Entry>, k: string, v: bool, w: bool)
    ensures Put(Put(es, k, v), k, w) == Put(es, k, w)
  {
    if |es| > 0 && es[0].key != k {
      PutPut(es[1..], k, v, w);
    }
  }

  /** Toggling twice restores every item's checked state, and restores the
      record itself when the key was already in it. */
  lemma ToggleTwice(es: seq<Entry>, k: string)
    ensures forall j :: Checked(Toggle(Toggle(es, k), k), j) == Checked(es, j)
    ensures Lookup(es, k).Some? ==> Toggle(Toggle(es, k), k) == es
  {
    PutPut(es, k, !Checked(es, k), Checked(es, k));
    if Lookup(es, k).Some? {
      PutSame(es, k, Checked(es, k));
    }
  }

  /** `Object.values(record).filter(Boolean).length`. */
  function CompletedCount(es: seq<Entry>): (n: nat)
    ensures n <= |es|
    ensures n == 0 <==> forall e :: e in es ==> !e.done
  {
    if |es| == 0 then 0 else (if es[0].done then 1 else 0) + CompletedCount(es[1..])
  }

  /** `Object.entries(record).filter(([, done]) => done).map(([id]) => id)`. */
  function CompletedItems(es: seq<Entry>): seq<string> {
    if |es| == 0 then []
    else if es[0].done then [es[0].key] + CompletedItems(es[1..])
    else CompletedItems(es[1..])
  }

  /** The progress count and the payload agree. */
  lemma {:induction false} CountMatchesPayload(es: seq<Entry>)
    ensures CompletedCount(es) == |CompletedItems(es)|
  {
    if |es| > 0 {
      CountMatchesPayload(es[1..]);
    }
  }

  /** The payload lists exactly the keys marked true. */
  lemma {:induction false} CompletedItemsExact(es: seq<Entry>, k: string)
    requires DistinctKeys(es)
    ensures k in CompletedItems(es) <==> Lookup(es, k) == Some(true)
  {
    if |es| > 0 {
      assert DistinctKeys(es[1..]);
      CompletedItemsExact(es[1..], k);
      if es[0].key == k {
        LookupIn(es[1..], k);
        assert forall e :: e in es[1..] ==> e.key != k;
        KeysOfCompleted(es[1..]);
      }
    }
  }

  lemma {:induction false} KeysOfCompleted(es: seq<Entry>)
    ensures forall c :: c in CompletedItems(es) ==> exists e :: e in es && e.key == c
  {
    if |es| > 0 {
      KeysOfCompleted(es[1..]);
      assert forall e :: e in es[1..] ==> e in es;
    }
  }

  /** A write changes the count by the old and new value of that key. */
  lemma {:induction false} PutCount(es: seq<Entry>, k: string, v: bool)
    ensures CompletedCount(Put(es, k, v))
         == CompletedCount(es) - (if Lookup(es, k) == Some(true) then 1 else 0) + (if v then 1 else 0)
  {
    if |es| > 0 && es[0].key != k {
      PutCount(es[1..], k, v);
    }
  }

  /** Toggling moves the completed count by exactly one. */
  lemma ToggleCount(es: seq<Entry>, k: string)
    ensures CompletedCount(Toggle(es, k)) == CompletedCount(es) + (if Checked(es, k) then -1 else 1)
  {
    PutCount(es, k, !Checked(es, k));
  }

  predicate IsDone(item: AuditItem) {
    item.status == Some("done")
  }

  /** No later item has the same id: this item's value is the one kept. */
  predicate LastWithId(items: seq<AuditItem>, i: int)
    requires 0 <= i < |items|
  {
    forall m :: i < m < |items| ==> items[m].id != items[i].id
  }

  /** The record holds a key exactly for the ids among the first `n` items. */
  ghost predicate CoversPrefix(status: seq<Entry>, items: seq<AuditItem>, n: nat)
    requires n <= |items|
  {
    forall k :: Lookup(status, k).Some? <==> exists i :: 0 <= i < n && items[i].id == k
  }

  /** Among the first `n` items, each id's value is that of its last item. */
  ghost predicate KeepsLast(status: seq<Entry>, items: seq<AuditItem>, n: nat)
    requires n <= |items|
  {
    forall i :: 0 <= i < n && (forall m :: i < m < n ==> items[m].id != items[i].id) ==>
      Lookup(status, items[i].id) == Some(IsDone(items[i]))
  }

  /** One step of the `reduce` extends the covered prefix. */
  lemma PutCovers(status: seq<Entry>, items: seq<AuditItem>, n: nat)
    requires n < |items| && CoversPrefix(status, items, n)
    ensures CoversPrefix(Put(status, items[n].id, IsDone(items[n])), items, n + 1)
  {
    var next := Put(status, items[n].id, IsDone(items[n]));
    forall k ensures Lookup(next, k).Some? <==> exists i :: 0 <= i < n + 1 && items[i].id == k {
      if k == items[n].id {
        assert Lookup(next, k).Some?;
        assert items[n].id == k;
      } else {
        assert Lookup(next, k) == Lookup(status, k);
        if exists i :: 0 <= i < n + 1 && items[i].id == k {
          var i :| 0 <= i < n + 1 && items[i].id == k;
          assert i < n;
        }
      }
    }
  }

  /** One step of the `reduce` keeps each id's last value. */
  lemma PutKeepsLast(status: seq<Entry>, items: seq<AuditItem>, n: nat)
    requires n < |items| && KeepsLast(status, items, n)
    ensures KeepsLast(Put(status, items[n].id, IsDone(items[n])), items, n + 1)
  {
    var next := Put(status, items[n].id, IsDone(items[n]));
    forall i | 0 <= i < n + 1 && (forall m :: i < m < n + 1 ==> items[m].id != items[i].id)
      ensures Lookup(next, items[i].id) == Some(IsDone(items[i]))
    {
      if i < n {
        assert items[n].id != items[i].id;
        assert forall m :: i < m < n ==> items[m].id != items[i].id;
        assert Lookup(next, items[i].id) == Lookup(status, items[i].id);
      }
    }
  }

  /** The keys of the record, in its order. */
  function Keys(es: seq<Entry>): (r: seq<string>)
    ensures |r| == |es|
    ensures forall k :: k in r <==> Lookup(es, k).Some?
  {
    if |es| == 0 then [] else [es[0].key] + Keys(es[1..])
  }

  function ItemIds(items: seq<AuditItem>): seq<string> {
    seq(|items|, i requires 0 <= i < |items| => items[i].id)
  }

  /** A write keeps the keys' order; a new key goes last. */
  lemma {:induction false} PutKeys(es: seq<Entry>, k: string, v: bool)
    ensures Keys(Put(es, k, v)) == if k in Keys(es) then Keys(es) else Keys(es) + [k]
  {
    if |es| > 0 && es[0].key != k {
      PutKeys(es[1..], k, v);
      var rest := Put(es[1..], k, v);
      assert ([es[0]] + rest)[1..] == rest;
    } else if |es| > 0 {
      assert ([Entry(k, v)] + es[1..])[1..] == es[1..];
    }
  }

  /** Deduplicating one more value appends it exactly when it is new. */
  lemma {:induction false} DedupSnoc(xs: seq<string>, seen: seq<string>, x: string)
    requires NoDuplicates(seen)
    ensures Dedup(xs + [x], seen) == if x in Dedup(xs, seen) then Dedup(xs, seen) else Dedup(xs, seen) + [x]
  {
    if |xs| == 0 {
      assert xs + [x] == [x];
      assert [x][1..] == [];
    } else {
      assert (xs + [x])[0] == xs[0];
      assert (xs + [x])[1..] == xs[1..] + [x];
      if xs[0] in seen {
        DedupSnoc(xs[1..], seen, x);
      } else {
        DedupSnoc(xs[1..], seen + [xs[0]], x);
      }
    }
  }

  /** One step of the `reduce` keeps the keys in first-occurrence order. */
  lemma PutFollowsDedup(status: seq<Entry>, items: seq<AuditItem>, n: nat)
    requires n < |items| && Keys(status) == Dedup(ItemIds(items[..n]), [])
    ensures Keys(Put(status, items[n].id, IsDone(items[n]))) == Dedup(ItemIds(items[..n + 1]), [])
  {
    PutKeys(status, items[n].id, IsDone(items[n]));
    assert ItemIds(items[..n + 1]) == ItemIds(items[..n]) + [items[n].id];
    DedupSnoc(ItemIds(items[..n]), [], items[n].id);
  }

  /** The checklist built from `items`: distinct keys, a key exactly for
      each item id, and each id's value from the last item with that id. */
  ghost predicate StatusFrom(status: seq<Entry>, items: seq<AuditItem>) {
    && DistinctKeys(status)
    && (forall k :: Lookup(status, k).Some? <==> exists i :: 0 <= i < |items| && items[i].id == k)
    && (forall i :: 0 <= i < |items| && LastWithId(items, i) ==> Lookup(status, items[i].id) == Some(IsDone(items[i])))
  }

  /** The `reduce` of `handleStartAudit`: one entry per distinct item id,
      true exactly when the last item with that id has status "done". */
  method InitialStatus(items: seq<AuditItem>) returns (status: seq<Entry>)
    ensures DistinctKeys(status)
    ensures forall k :: Lookup(status, k).Some? <==> exists i :: 0 <= i < |items| && items[i].id == k
    ensures forall i :: 0 <= i < |items| && LastWithId(items, i) ==> Lookup(status, items[i].id) == Some(IsDone(items[i]))
    ensures Keys(status) == Dedup(ItemIds(items), [])
  {
    status := [];
    var n := 0;
    while n < |items|
      invariant 0 <= n <= |items|
      invariant DistinctKeys(status)
      invariant CoversPrefix(status, items, n)
      invariant KeepsLast(status, items, n)
      invariant Keys(status) == Dedup(ItemIds(items[..n]), [])
      decreases |items| - n
    {
      PutCovers(status, items, n);
      PutKeepsLast(status, items, n);
      PutFollowsDedup(status, items, n);
      status := Put(status, items[n].id, IsDone(items[n]));
      n := n + 1;
    }
    assert items[..n] == items;
  }

  function TemplateId(t: AuditTemplate): string { t.id }

  /** `audits.find((a) => a.id === id)`. */
  function FindTemplate(audits: seq<AuditTemplate>, id: Option<string>): Option<AuditTemplate> {
    FindById(audits, TemplateId, id)
  }

  // ---------------------------------------------------------------------
  // The component's state
  // ---------------------------------------------------------------------

  datatype Feedback = NoFeedback | Earned(xp: int) | SaveFailed(message: string)

  /** What the results POST did: resolved, or threw (with the message of an
      `Error`, or something that is not an `Error`). */
  datatype PostOutcome = Posted | PostThrew(message: Option<string>)

  datatype CompletionPayload = CompletionPayload(auditId: string, completedItems: seq<string>)

  class AuditBoard {
    /** `config?.auditTemplates ?? []`. */
    const audits: seq<AuditTemplate>
    var selectedAuditId: Option<string>
    var difficultyFilter: Difficulty
    var categoryFilter: string
    var itemStatus: seq<Entry>
    var feedback: Feedback

    ghost predicate Valid()
      reads this
    {
      DistinctKeys(itemStatus)
    }

    constructor (audits: seq<AuditTemplate>)
      ensures Valid() && this.audits == audits
      ensures selectedAuditId.None? && difficultyFilter == AllDifficulties && categoryFilter == "all"
      ensures itemStatus == [] && feedback == NoFeedback
    {
      this.audits := audits;
      selectedAuditId := None;
      difficultyFilter := AllDifficulties;
      categoryFilter := "all";
      itemStatus := [];
      feedback := NoFeedback;
    }

    function SelectedAudit(): Option<AuditTemplate>
      reads this
    {
      FindTemplate(audits, selectedAuditId)
    }

    /** `handleStartAudit(id)`: select, clear the feedback, and when the
        template exists reset the checklist from its items' statuses (an
        unknown id keeps the old checklist). */
    method StartAudit(auditId: string)
      requires Valid()
      modifies this
      ensures Valid()
      ensures selectedAuditId == Some(auditId) && feedback == NoFeedback
      ensures difficultyFilter == old(difficultyFilter) && categoryFilter == old(categoryFilter)
      ensures FindTemplate(audits, Some(auditId)).None? ==> itemStatus == old(itemStatus)
      ensures FindTemplate(audits, Some(auditId)).Some? ==>
                StatusFrom(itemStatus, FindTemplate(audits, Some(auditId)).value.items)
    {
      var audit := FindTemplate(audits, Some(auditId));
      var status := itemStatus;
      if audit.Some? {
        status := InitialStatus(audit.value.items);
        assert StatusFrom(status, audit.value.items);
      }
      selectedAuditId := Some(auditId);
      feedback := NoFeedback;
      itemStatus := status;
    }

    /** `handleToggleItem(id)`. */
    method ToggleItem(itemId: string)
      requires Valid()
      modifies this`itemStatus
      ensures Valid()
      ensures itemStatus == Toggle(old(itemStatus), itemId)
    {
      itemStatus := Toggle(itemStatus, itemId);
    }

    /** "Back to list": only the selection is cleared. */
    method BackToList()
      modifies this`selectedAuditId
      ensures selectedAuditId.None?
    {
      selectedAuditId := None;
    }

    method SetDifficultyFilter(d: Difficulty)
      modifies this`difficultyFilter
      ensures difficultyFilter == d
    {
      difficultyFilter := d;
    }

    method SetCategoryFilter(c: string)
      modifies this`categoryFilter
      ensures categoryFilter == c
    {
      categoryFilter := c;
    }

    /** `handleCompleteAudit`: without a selected template nothing happens;
        otherwise the payload lists the ids marked done, and the feedback
        reports the XP or the failure. */
    method CompleteAudit(outcome: PostOutcome) returns (payload: Option<CompletionPayload>)
      requires Valid()
      modifies this`feedback
      ensures SelectedAudit().None? ==> payload.None? && feedback == old(feedback)
      ensures SelectedAudit().Some? ==>
                && payload == Some(CompletionPayload(SelectedAudit().value.id, CompletedItems(itemStatus)))
                && (outcome.Posted? ==> feedback == Earned(SelectedAudit().value.xpReward))
                && (outcome.PostThrew? ==>
                      feedback == SaveFailed(outcome.message.GetOr("Failed to save audit results")))
      ensures payload.Some? ==>
                |payload.value.completedItems| == CompletedCount(itemStatus)
                && forall k :: k in payload.value.completedItems <==> Lookup(itemStatus, k) == Some(true)
    {
      var audit := SelectedAudit();
      if audit.None? {
        return None;
      }
      var items := CompletedItems(itemStatus);
      CountMatchesPayload(itemStatus);
      forall k ensures k in items <==> Lookup(itemStatus, k) == Some(true) {
        CompletedItemsExact(itemStatus, k);
      }
      payload := Some(CompletionPayload(audit.value.id, items));
      match outcome {
        case Posted =>
          feedback := Earned(audit.value.xpReward);
        case PostThrew(message) =>
          feedback := SaveFailed(message.GetOr("Failed to save audit results"));
      }
    }
  }
}
