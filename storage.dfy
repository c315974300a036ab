/**
 * The document collection of the editor: the stored list of documents, the
 * expiry filter every read goes through, save (update in place or append),
 * delete, extend, the example document written into an empty store, and the
 * stored profile and settings with their defaults.
 *
 * Storage is a field of the store; the clock and the generated id are
 * parameters: `now` is a timestamp in milliseconds and `newId` the id that a
 * new document would get.
 */
module Storage {
  import opened Wrappers

  /** Thirty days in milliseconds: the lifetime a save or an extension gives a document. */
  const ThirtyDays: int := 30 * 24 * 60 * 60 * 1000

  datatype Document = Document(
    id: Option<string>,
    title: string,
    content: string,
    createdAt: int,
    updatedAt: int,
    tags: seq<string>,
    expiresAt: Option<int>)

  /** How a partial document gives its id: no such key, the key holding `undefined`, or a value. */
  datatype IdField = Missing | Undefined | Given(value: string)

  /** The partial document a caller saves; a `None` field is a key the caller left out. */
  datatype Patch = Patch(
    id: IdField,
    title: string,
    content: string,
    createdAt: Option<int>,
    updatedAt: Option<int>,
    tags: Option<seq<string>>,
    expiresAt: Option<int>)

  /** What `doc.id` reads as in a comparison: a missing key and `undefined` both read as no id. */
  function Key(f: IdField): Option<string> {
    if f.Given? then Some(f.value) else None
  }

  /** The id left after spreading the patch over a record whose id was `prior`. */
  function SpreadId(f: IdField, prior: Option<string>): Option<string> {
    match f
    case Missing => prior
    case Undefined => None
    case Given(v) => Some(v)
  }

  // ---------------------------------------------------------------------------
  // Filters
  // ---------------------------------------------------------------------------

  /** A document with no expiry, or one that expires strictly after `now`. */
  predicate Live(d: Document, now: int) {
    d.expiresAt.None? || d.expiresAt.value > now
  }

  /** The two filters the store applies: unexpired at a time, and not carrying an id. */
  datatype Criterion = AliveAt(now: int) | OtherThan(id: string)

  predicate Passes(c: Criterion, d: Document) {
    match c
    case AliveAt(now) => Live(d, now)
    case OtherThan(id) => d.id != Some(id)
  }

  /** `Array.prototype.filter`: the documents that pass, in their order. */
  function Keep(s: seq<Document>, c: Criterion): (r: seq<Document>)
    ensures |r| <= |s|
  {
    if s == [] then []
    else if Passes(c, s[0]) then [s[0]] + Keep(s[1..], c)
    else Keep(s[1..], c)
  }

  function Unexpired(s: seq<Document>, now: int): seq<Document> {
    Keep(s, AliveAt(now))
  }

  function WithoutId(s: seq<Document>, id: string): seq<Document> {
    Keep(s, OtherThan(id))
  }

  /** The filter keeps exactly the documents that pass. */
  lemma {:induction false} KeepMembers(s: seq<Document>, c: Criterion)
    ensures forall d | d in Keep(s, c) :: d in s && Passes(c, d)
    ensures forall d | d in s && Passes(c, d) :: d in Keep(s, c)
    decreases |s|
  {
    if s != [] {
      KeepMembers(s[1..], c);
      assert s == [s[0]] + s[1..];
    }
  }

  /** The filter keeps order: filtering a concatenation filters each part. */
  lemma {:induction false} KeepAppend(a: seq<Document>, b: seq<Document>, c: Criterion)
    ensures Keep(a + b, c) == Keep(a, c) + Keep(b, c)
    decreases |a|
  {
    if a != [] {
      KeepAppend(a[1..], b, c);
      KeepFront(a, b, c);
    } else {
      assert a + b == b;
    }
  }

  /** One step of `KeepAppend`: the first document of `a` is also the first of `a + b`. */
  lemma KeepFront(a: seq<Document>, b: seq<Document>, c: Criterion)
    requires a != []
    requires Keep(a[1..] + b, c) == Keep(a[1..], c) + Keep(b, c)
    ensures Keep(a + b, c) == Keep(a, c) + Keep(b, c)
  {
    assert (a + b)[0] == a[0] && (a + b)[1..] == a[1..] + b;
    if Passes(c, a[0]) {
      Assoc3([a[0]], Keep(a[1..], c), Keep(b, c));
    }
  }

  lemma Assoc3(x: seq<Document>, y: seq<Document>, z: seq<Document>)
    ensures x + (y + z) == x + y + z
  {
  }

  /** The filter drops something exactly when some document fails it; otherwise it changes nothing. */
  lemma KeepDrops(s: seq<Document>, c: Criterion)
    ensures |Keep(s, c)| < |s| <==> exists k | 0 <= k < |s| :: !Passes(c, s[k])
    ensures |Keep(s, c)| == |s| ==> Keep(s, c) == s
  {
    KeepFull(s, c);
    if exists k | 0 <= k < |s| :: !Passes(c, s[k]) {
      var k :| 0 <= k < |s| && !Passes(c, s[k]);
      KeepMembers(s, c);
      assert s[k] in s;
    } else {
      KeepAllPass(s, c);
    }
  }

  /** A filter that keeps as many documents as it was given keeps them all. */
  lemma {:induction false} KeepFull(s: seq<Document>, c: Criterion)
    ensures |Keep(s, c)| == |s| ==> Keep(s, c) == s
    decreases |s|
  {
    if s != [] {
      KeepFull(s[1..], c);
      assert s == [s[0]] + s[1..];
    }
  }

  /** A filter every document passes keeps them all. */
  lemma {:induction false} KeepAllPass(s: seq<Document>, c: Criterion)
    requires forall k | 0 <= k < |s| :: Passes(c, s[k])
    ensures Keep(s, c) == s
    decreases |s|
  {
    if s != [] {
      assert forall k | 0 <= k < |s[1..]| :: s[1..][k] == s[k + 1];
      KeepAllPass(s[1..], c);
      assert s == [s[0]] + s[1..];
    }
  }

  /** Everything the filter keeps passes it. */
  lemma KeepPasses(s: seq<Document>, c: Criterion)
    ensures forall k | 0 <= k < |Keep(s, c)| :: Passes(c, Keep(s, c)[k])
  {
    var r := Keep(s, c);
    KeepMembers(s, c);
    forall k | 0 <= k < |r| ensures Passes(c, r[k]) {
      assert r[k] in r;
    }
  }

  /** Filtering twice is filtering once. */
  lemma KeepIdempotent(s: seq<Document>, c: Criterion)
    ensures Keep(Keep(s, c), c) == Keep(s, c)
  {
    KeepPasses(s, c);
    KeepDrops(Keep(s, c), c);
  }

  predicate AllLive(s: seq<Document>, now: int) {
    forall k | 0 <= k < |s| :: Live(s[k], now)
  }

  /** After the expiry filter every document is live. */
  lemma UnexpiredAllLive(s: seq<Document>, now: int)
    ensures AllLive(Unexpired(s, now), now)
  {
    KeepPasses(s, AliveAt(now));
  }

  /** A list that is all live passes the expiry filter unchanged. */
  lemma AllLiveUnexpired(s: seq<Document>, now: int)
    requires AllLive(s, now)
    ensures Unexpired(s, now) == s
  {
    KeepDrops(s, AliveAt(now));
  }

  // ---------------------------------------------------------------------------
  // Finding by id
  // ---------------------------------------------------------------------------

  /** `Array.prototype.findIndex` on the id: the first index whose id is `key`. */
  function FindById(s: seq<Document>, key: Option<string>): (r: Option<nat>)
    ensures r.Some? ==> r.value < |s| && s[r.value].id == key
    ensures r.Some? ==> forall k | 0 <= k < r.value :: s[k].id != key
    ensures r.None? ==> forall k | 0 <= k < |s| :: s[k].id != key
  {
    if s == [] then None
    else if s[0].id == key then Some(0)
    else
      match FindById(s[1..], key)
      case None => None
      case Some(j) => Some(j + 1)
  }

  /** An index that has the key and follows no other with it is what the search returns. */
  lemma FindByIdAt(s: seq<Document>, key: Option<string>, i: nat)
    requires i < |s| && s[i].id == key
    requires forall k | 0 <= k < i :: s[k].id != key
    ensures FindById(s, key) == Some(i)
  {
  }

  /** Filtering around a document that passes keeps it between the filtered parts. */
  lemma KeepSplit(a: seq<Document>, d: Document, b: seq<Document>, c: Criterion)
    requires Passes(c, d)
    ensures Keep(a + [d] + b, c) == Keep(a, c) + [d] + Keep(b, c)
  {
    KeepAppend(a + [d], b, c);
    KeepAppend(a, [d], c);
    assert [d][1..] == [];
  }

  /** A filtered list holds no id that the list did not hold. */
  lemma FrontLacks(a: seq<Document>, c: Criterion, key: Option<string>)
    requires forall k | 0 <= k < |a| :: a[k].id != key
    ensures forall k | 0 <= k < |Keep(a, c)| :: Keep(a, c)[k].id != key
  {
    KeepMembers(a, c);
    forall k | 0 <= k < |Keep(a, c)| ensures Keep(a, c)[k].id != key {
      assert Keep(a, c)[k] in Keep(a, c);
    }
  }

  /** The first document with the key, after a stretch without it, is found at the end of that stretch. */
  lemma FindAfter(f: seq<Document>, d: Document, g: seq<Document>, key: Option<string>)
    requires d.id == key
    requires forall k | 0 <= k < |f| :: f[k].id != key
    ensures FindById(f + [d] + g, key) == Some(|f|)
  {
    var t := f + [d] + g;
    assert t[|f|] == d;
    assert forall k | 0 <= k < |f| :: t[k] == f[k];
    FindByIdAt(t, key, |f|);
  }

  lemma UpdateSplit(s: seq<Document>, i: nat, d: Document)
    requires i < |s|
    ensures s[i := d] == s[..i] + [d] + s[i + 1..]
  {
  }

  /** A live document with the id, after documents without it, is what a lookup after the expiry filter returns. */
  lemma LookupAfterSplit(f: seq<Document>, d: Document, g: seq<Document>, id: string, now: int)
    requires Live(d, now) && d.id == Some(id)
    requires forall k | 0 <= k < |f| :: f[k].id != Some(id)
    ensures Lookup(Unexpired(f + [d] + g, now), id) == Some(d)
  {
    KeepSplit(f, d, g, AliveAt(now));
    FrontLacks(f, AliveAt(now), Some(id));
    FindAfter(Keep(f, AliveAt(now)), d, Keep(g, AliveAt(now)), Some(id));
  }

  /** `find`: the first document whose id is `id`. */
  function Lookup(s: seq<Document>, id: string): (r: Option<Document>)
    ensures r.Some? <==> exists k | 0 <= k < |s| :: s[k].id == Some(id)
    ensures r.Some? ==> r.value in s && r.value.id == Some(id)
    ensures r.Some? ==> exists i | 0 <= i < |s| ::
      s[i] == r.value && forall k | 0 <= k < i :: s[k].id != Some(id)
  {
    match FindById(s, Some(id))
    case None => None
    case Some(i) => Some(s[i])
  }

  // ---------------------------------------------------------------------------
  // Save
  // ---------------------------------------------------------------------------

  /** An existing record with the patch spread over it; the save time and a new expiry come last. */
  function Overlay(prior: Document, p: Patch, now: int): Document {
    Document(
      SpreadId(p.id, prior.id),
      p.title,
      p.content,
      p.createdAt.GetOr(prior.createdAt),
      now,
      p.tags.GetOr(prior.tags),
      Some(now + ThirtyDays))
  }

  /**
   * A new record: generated defaults with the patch spread last, so every key
   * the patch holds wins, an `undefined` id included.
   */
  function NewRecord(p: Patch, now: int, newId: string): Document {
    Document(
      SpreadId(p.id, Some(newId)),
      p.title,
      p.content,
      p.createdAt.GetOr(now),
      p.updatedAt.GetOr(now),
      p.tags.GetOr([]),
      Some(p.expiresAt.GetOr(now + ThirtyDays)))
  }

  /** The record a save writes: the overlaid match, or `created` when no record has the patch's id. */
  function SavedRecord(s: seq<Document>, p: Patch, now: int, created: Document): Document {
    match FindById(s, Key(p.id))
    case Some(i) => Overlay(s[i], p, now)
    case None => created
  }

  /** The list a save leaves: the match replaced where it stands, or `created` appended. */
  function Upsert(s: seq<Document>, p: Patch, now: int, created: Document): seq<Document> {
    match FindById(s, Key(p.id))
    case Some(i) => s[i := Overlay(s[i], p, now)]
    case None => s + [created]
  }

  function Saved(s: seq<Document>, p: Patch, now: int, newId: string): seq<Document> {
    Upsert(s, p, now, NewRecord(p, now, newId))
  }

  /** Saving over a record with the same id replaces that record and no other. */
  lemma SaveUpdates(s: seq<Document>, p: Patch, now: int, created: Document)
    requires FindById(s, Key(p.id)).Some?
    ensures var i := FindById(s, Key(p.id)).value;
      var r := Upsert(s, p, now, created);
      && |r| == |s| && r[i] == SavedRecord(s, p, now, created)
      && r[i].updatedAt == now && r[i].expiresAt == Some(now + ThirtyDays)
      && r[i].title == p.title && r[i].content == p.content
      && r[i].createdAt == p.createdAt.GetOr(s[i].createdAt)
      && r[i].tags == p.tags.GetOr(s[i].tags)
      && r[i].id == s[i].id
      && forall k | 0 <= k < |s| && k != i :: r[k] == s[k]
  {
  }

  /** Saving with an id no record has appends one record and keeps the rest. */
  lemma SaveAppends(s: seq<Document>, p: Patch, now: int, newId: string)
    requires FindById(s, Key(p.id)).None?
    ensures var r := Saved(s, p, now, newId);
      && |r| == |s| + 1 && r[..|s|] == s && r[|s|] == SavedRecord(s, p, now, NewRecord(p, now, newId))
      && r[|s|].title == p.title && r[|s|].content == p.content
      && (p.createdAt.None? ==> r[|s|].createdAt == now)
      && (p.updatedAt.None? ==> r[|s|].updatedAt == now)
      && (p.expiresAt.None? ==> r[|s|].expiresAt == Some(now + ThirtyDays))
      && (p.tags.None? ==> r[|s|].tags == [])
      && (p.id.Missing? ==> r[|s|].id == Some(newId))
  {
    assert (s + [NewRecord(p, now, newId)])[..|s|] == s;
  }

  /** Every key the patch holds overrides the generated default of a new record. */
  lemma NewRecordPatchWins(p: Patch, now: int, newId: string)
    ensures var d := NewRecord(p, now, newId);
      && (p.createdAt.Some? ==> d.createdAt == p.createdAt.value)
      && (p.updatedAt.Some? ==> d.updatedAt == p.updatedAt.value)
      && (p.expiresAt.Some? ==> d.expiresAt == p.expiresAt)
      && (p.tags.Some? ==> d.tags == p.tags.value)
      && (p.id.Given? ==> d.id == Some(p.id.value))
      && (p.id.Undefined? ==> d.id == None)
  {
  }

  /**
   * Saving a document with an id and then reading it back at the same time
   * gives the saved record, provided a given expiry lies in the future.
   */
  lemma SaveThenLookup(s: seq<Document>, p: Patch, now: int, newId: string)
    requires p.id.Given?
    requires p.expiresAt.None? || p.expiresAt.value > now
    ensures var r := Saved(s, p, now, newId);
      Lookup(Unexpired(r, now), p.id.value) == Some(SavedRecord(s, p, now, NewRecord(p, now, newId)))
  {
    var r := Saved(s, p, now, newId);
    var key := Key(p.id);
    var d := SavedRecord(s, p, now, NewRecord(p, now, newId));
    match FindById(s, key)
    case Some(i) =>
      SaveUpdates(s, p, now, NewRecord(p, now, newId));
      assert r == s[i := d];
      UpdateSplit(s, i, d);
      assert forall k | 0 <= k < i :: s[..i][k] == s[k];
      LookupAfterSplit(s[..i], d, s[i + 1..], p.id.value, now);
    case None =>
      SaveAppends(s, p, now, newId);
      assert r == s + [d] + [];
      LookupAfterSplit(s, d, [], p.id.value, now);
  }

  /**
   * Saving the same patch twice at the same time is saving it once, when the
   * patch carries an id and neither an update time nor an expiry.
   */
  lemma SaveTwice(s: seq<Document>, p: Patch, now: int, newId: string, newId': string)
    requires p.id.Given? && p.updatedAt.None? && p.expiresAt.None?
    ensures Saved(Saved(s, p, now, newId), p, now, newId') == Saved(s, p, now, newId)
  {
    var key := Key(p.id);
    var r := Saved(s, p, now, newId);
    match FindById(s, key)
    case Some(i) =>
      SaveUpdates(s, p, now, NewRecord(p, now, newId));
      FindByIdAt(r, key, i);
      assert r[i := Overlay(r[i], p, now)] == r;
    case None =>
      SaveAppends(s, p, now, newId);
      assert forall k | 0 <= k < |s| :: r[k] == s[k];
      FindByIdAt(r, key, |s|);
      assert r[|s| := Overlay(r[|s|], p, now)] == r;
  }

  /** A save at `now` keeps a list that is all live at `now` all live, when a given expiry is in the future. */
  lemma SaveKeepsLive(s: seq<Document>, p: Patch, now: int, newId: string)
    requires AllLive(s, now)
    requires p.expiresAt.None? || p.expiresAt.value > now
    ensures AllLive(Saved(s, p, now, newId), now)
  {
  }

  // ---------------------------------------------------------------------------
  // An `undefined` id
  // ---------------------------------------------------------------------------

  /** Every record carries an id. */
  predicate AllHaveIds(s: seq<Document>) {
    forall k | 0 <= k < |s| :: s[k].id.Some?
  }

  /**
   * As written, a new document saved with an `undefined` id loses its
   * generated id, and the next such save overwrites it: two new documents
   * saved into an empty list leave one.
   */
  lemma UndefinedIdLost(p1: Patch, p2: Patch, t1: int, t2: int, id1: string, id2: string)
    requires p1.id.Undefined? && p2.id.Undefined?
    ensures !AllHaveIds(Saved([], p1, t1, id1))
    ensures Saved(Saved([], p1, t1, id1), p2, t2, id2) == [Overlay(NewRecord(p1, t1, id1), p2, t2)]
  {
    assert Saved([], p1, t1, id1) == [NewRecord(p1, t1, id1)];
    assert Saved([], p1, t1, id1)[0].id.None?;
  }

  /** A new record whose id is the generated one unless the patch gives one. */
  function IntendedNewRecord(p: Patch, now: int, newId: string): (d: Document)
    ensures d.id == Some(if p.id.Given? then p.id.value else newId)
    ensures d == NewRecord(p, now, newId).(id := d.id)
  {
    NewRecord(p, now, newId).(id := Some(if p.id.Given? then p.id.value else newId))
  }

  function IntendedSaved(s: seq<Document>, p: Patch, now: int, newId: string): seq<Document> {
    Upsert(s, p, now, IntendedNewRecord(p, now, newId))
  }

  /** With the generated id kept, every record keeps an id through any save, and one without an id appends. */
  lemma IntendedKeepsIds(s: seq<Document>, p: Patch, now: int, newId: string)
    requires AllHaveIds(s)
    ensures AllHaveIds(IntendedSaved(s, p, now, newId))
    ensures !p.id.Given? ==> IntendedSaved(s, p, now, newId) == s + [IntendedNewRecord(p, now, newId)]
  {
    if !p.id.Given? {
      assert FindById(s, Key(p.id)).None?;
    }
  }

  /** With the generated id kept, two new documents saved into an empty list are both there. */
  lemma IntendedKeepsBoth(p1: Patch, p2: Patch, t1: int, t2: int, id1: string, id2: string)
    requires p1.id.Undefined? && p2.id.Undefined?
    ensures IntendedSaved(IntendedSaved([], p1, t1, id1), p2, t2, id2)
         == [IntendedNewRecord(p1, t1, id1), IntendedNewRecord(p2, t2, id2)]
  {
    IntendedKeepsIds([], p1, t1, id1);
    IntendedKeepsIds(IntendedSaved([], p1, t1, id1), p2, t2, id2);
  }

  // ---------------------------------------------------------------------------
  // Extend
  // ---------------------------------------------------------------------------

  /** The list after extending: the first record with the id expires thirty days after `now`. */
  function Extended(s: seq<Document>, id: string, now: int): seq<Document> {
    match FindById(s, Some(id))
    case Some(i) => s[i := s[i].(expiresAt := Some(now + ThirtyDays))]
    case None => s
  }

  /** Extending changes the expiry of the first record with the id and nothing else. */
  lemma ExtendChangesOne(s: seq<Document>, id: string, now: int)
    ensures var r := Extended(s, id, now);
      && |r| == |s|
      && (forall k | 0 <= k < |s| :: r[k].id == s[k].id)
      && match FindById(s, Some(id))
         case None => r == s
         case Some(i) =>
           && r[i] == s[i].(expiresAt := Some(now + ThirtyDays))
           && forall k | 0 <= k < |s| && k != i :: r[k] == s[k]
  {
  }

  /** An extended record is found again at any time before its new expiry. */
  lemma ExtendThenLookup(s: seq<Document>, id: string, now: int, later: int)
    requires later < now + ThirtyDays
    requires exists k | 0 <= k < |s| :: s[k].id == Some(id)
    ensures var r := Extended(s, id, now);
      Lookup(Unexpired(r, later), id) == Some(s[FindById(s, Some(id)).value].(expiresAt := Some(now + ThirtyDays)))
  {
    var r := Extended(s, id, now);
    var i := FindById(s, Some(id)).value;
    var e := s[i].(expiresAt := Some(now + ThirtyDays));
    assert r == s[i := e];
    UpdateSplit(s, i, e);
    assert Live(e, later) && e.id == Some(id);
    assert forall k | 0 <= k < i :: s[..i][k] == s[k];
    LookupAfterSplit(s[..i], e, s[i + 1..], id, later);
  }

  // ---------------------------------------------------------------------------
  // Delete
  // ---------------------------------------------------------------------------

  /** Deleting removes every record with the id, keeps the others in order, and shrinks the list exactly when one had it. */
  lemma DeleteRemovesAll(s: seq<Document>, id: string)
    ensures var r := WithoutId(s, id);
      && (forall d | d in r :: d.id != Some(id))
      && (forall d | d in s && d.id != Some(id) :: d in r)
      && (|r| < |s| <==> exists k | 0 <= k < |s| :: s[k].id == Some(id))
      && (|r| == |s| ==> r == s)
  {
    KeepMembers(s, OtherThan(id));
    KeepDrops(s, OtherThan(id));
  }

  /** Removing an id and then looking it up finds nothing. */
  lemma DeleteThenLookup(s: seq<Document>, id: string)
    ensures Lookup(WithoutId(s, id), id).None?
  {
    KeepPasses(s, OtherThan(id));
  }

  // ---------------------------------------------------------------------------
  // The example document
  // ---------------------------------------------------------------------------

  const ExampleTitle := "My Journey into Web Development"

  const ExampleContent :=
    "# My Journey into Web Development\n" +
    "\n" +
    "## The Beginning\n" +
    "\n" +
    "I first became interested in web development when I was trying to create a simple website for a personal project. What started as a curiosity soon grew into a passion.\n" +
    "\n" +
    "### Learning the Basics\n" +
    "\n" +
    "I began with the fundamentals:\n" +
    "\n" +
    "* HTML for structure\n" +
    "* CSS for styling\n" +
    "* JavaScript for interactivity\n" +
    "\n" +
    "## Growing as a Developer\n" +
    "\n" +
    "> \"The most powerful tool we have as developers is automation.\"\n" +
    "\n" +
    "As I continued learning, I discovered frameworks and libraries that made development more efficient:\n" +
    "\n" +
    "1. React for UI\n" +
    "2. TypeScript for type safety\n" +
    "3. Tailwind CSS for styling\n" +
    "\n" +
    "```\n" +
    "// My first React component\n" +
    "function Greeting({ name }) {\n" +
    "  return <h1>Hello, {name}!</h1>;\n" +
    "}\n" +
    "```\n" +
    "\n" +
    "## What's Next\n" +
    "\n" +
    "I'm currently exploring **backend development** with Node.js and looking forward to becoming a full-stack developer.\n" +
    "\n" +
    "[Check out my projects](https://github.com)\n" +
    "\n" +
    "![Web Development](https://images.unsplash.com/photo-1517694712202-14dd9538aa97)\n"

  /** The patch written into an empty store, with thirty days to live. */
  function ExamplePatch(now: int): Patch {
    Patch(Given("example"), ExampleTitle, ExampleContent, None, None, Some(["sample", "personal"]), Some(now + ThirtyDays))
  }

  /** The record an empty store holds after initialisation. */
  function ExampleRecord(now: int): Document {
    Document(Some("example"), ExampleTitle, ExampleContent, now, now, ["sample", "personal"], Some(now + ThirtyDays))
  }

  /** Saving the example patch into an empty list gives just the example record, whatever id was generated. */
  lemma ExampleSaved(now: int, newId: string)
    ensures Saved([], ExamplePatch(now), now, newId) == [ExampleRecord(now)]
    ensures SavedRecord([], ExamplePatch(now), now, NewRecord(ExamplePatch(now), now, newId)) == ExampleRecord(now)
  {
  }

  // ---------------------------------------------------------------------------
  // Profile and settings
  // ---------------------------------------------------------------------------

  datatype Profile = Profile(name: string, bio: string, avatar: Option<string>)

  datatype Theme = Light | Dark | System

  datatype Settings = Settings(theme: Theme, fontSize: string, fontFamily: string, autoSave: bool)

  const DefaultProfile := Profile("MarkMe User", "Write a brief description about yourself.", None)

  const DefaultSettings := Settings(System, "medium", "fira-code", true)

  // ---------------------------------------------------------------------------
  // The store
  // ---------------------------------------------------------------------------

  /**
   * The browser's storage as the collection sees it: the document list, the
   * profile and the settings (`None` when nothing is stored), and the number
   * of times the document list has been written back.
   */
  class DocStore {
    var docs: seq<Document>
    var profile: Option<Profile>
    var settings: Option<Settings>
    var docsWrites: nat

    constructor(docs0: seq<Document>, profile0: Option<Profile>, settings0: Option<Settings>)
      ensures docs == docs0 && profile == profile0 && settings == settings0 && docsWrites == 0
    {
      docs := docs0;
      profile := profile0;
      settings := settings0;
      docsWrites := 0;
    }

    /** The unexpired documents, written back only when the filter dropped one. */
    method GetDocuments(now: int) returns (r: seq<Document>)
      modifies this
      ensures r == Unexpired(old(docs), now) && docs == r
      ensures docsWrites == old(docsWrites) + (if |r| < |old(docs)| then 1 else 0)
      ensures profile == old(profile) && settings == old(settings)
    {
      var valid := Unexpired(docs, now);
      if |valid| < |docs| {
        docs := valid;
        docsWrites := docsWrites + 1;
      } else {
        KeepDrops(docs, AliveAt(now));
      }
      r := valid;
    }

    /** The first unexpired document with the id, if any. */
    method GetDocument(id: string, now: int) returns (r: Option<Document>)
      modifies this
      ensures r == Lookup(Unexpired(old(docs), now), id)
      ensures docs == Unexpired(old(docs), now)
      ensures docsWrites == old(docsWrites) + (if |docs| < |old(docs)| then 1 else 0)
      ensures profile == old(profile) && settings == old(settings)
    {
      var current := GetDocuments(now);
      r := Lookup(current, id);
    }

    /** Update the unexpired record with the patch's id in place, or append a new one. */
    method SaveDocument(p: Patch, now: int, newId: string) returns (r: Document)
      modifies this
      ensures docs == Saved(Unexpired(old(docs), now), p, now, newId)
      ensures r == SavedRecord(Unexpired(old(docs), now), p, now, NewRecord(p, now, newId))
      ensures docsWrites == old(docsWrites) + (if |Unexpired(old(docs), now)| < |old(docs)| then 1 else 0) + 1
      ensures profile == old(profile) && settings == old(settings)
    {
      var current := GetDocuments(now);
      var index := FindById(current, Key(p.id));
      if index.Some? {
        var updated := Overlay(docs[index.value], p, now);
        docs := docs[index.value := updated];
        docsWrites := docsWrites + 1;
        r := updated;
      } else {
        var created := NewRecord(p, now, newId);
        docs := docs + [created];
        docsWrites := docsWrites + 1;
        r := created;
      }
    }

    /** Remove every unexpired record with the id; true when there was one. */
    method DeleteDocument(id: string, now: int) returns (removed: bool)
      modifies this
      ensures removed <==> exists k | 0 <= k < |Unexpired(old(docs), now)| :: Unexpired(old(docs), now)[k].id == Some(id)
      ensures docs == WithoutId(Unexpired(old(docs), now), id)
      ensures docsWrites == old(docsWrites) + (if |Unexpired(old(docs), now)| < |old(docs)| then 1 else 0)
                                           + (if removed then 1 else 0)
      ensures profile == old(profile) && settings == old(settings)
    {
      var current := GetDocuments(now);
      var kept := WithoutId(current, id);
      DeleteRemovesAll(current, id);
      if |kept| != |current| {
        docs := kept;
        docsWrites := docsWrites + 1;
        removed := true;
      } else {
        removed := false;
      }
    }

    /** Give the first unexpired record with the id thirty more days from `now`; true when there was one. */
    method ExtendDocumentExpiration(id: string, now: int) returns (found: bool)
      modifies this
      ensures found <==> exists k | 0 <= k < |Unexpired(old(docs), now)| :: Unexpired(old(docs), now)[k].id == Some(id)
      ensures docs == Extended(Unexpired(old(docs), now), id, now)
      ensures docsWrites == old(docsWrites) + (if |Unexpired(old(docs), now)| < |old(docs)| then 1 else 0)
                                           + (if found then 1 else 0)
      ensures profile == old(profile) && settings == old(settings)
    {
      var current := GetDocuments(now);
      var index := FindById(current, Some(id));
      if index.Some? {
        var i := index.value;
        docs := docs[i := docs[i].(expiresAt := Some(now + ThirtyDays))];
        docsWrites := docsWrites + 1;
        found := true;
      } else {
        found := false;
      }
    }

    /** Write the example document when no unexpired document is left; otherwise only the expiry filter runs. */
    method InitializeDefaultContent(now: int, newId: string)
      modifies this
      ensures Unexpired(old(docs), now) == [] ==> docs == [ExampleRecord(now)]
      ensures Unexpired(old(docs), now) != [] ==> docs == Unexpired(old(docs), now)
      ensures docsWrites == old(docsWrites) + (if |Unexpired(old(docs), now)| < |old(docs)| then 1 else 0)
                                           + (if Unexpired(old(docs), now) == [] then 1 else 0)
      ensures profile == old(profile) && settings == old(settings)
    {
      var current := GetDocuments(now);
      if |current| == 0 {
        ExampleSaved(now, newId);
        assert Unexpired(docs, now) == [];
        var _ := SaveDocument(ExamplePatch(now), now, newId);
      }
    }

    /** Run the expiry filter for its write-back. */
    method CleanupExpiredDocuments(now: int)
      modifies this
      ensures docs == Unexpired(old(docs), now)
      ensures docsWrites == old(docsWrites) + (if |docs| < |old(docs)| then 1 else 0)
      ensures profile == old(profile) && settings == old(settings)
    {
      var _ := GetDocuments(now);
    }

    /** The stored profile, or the default one. */
    function GetProfile(): (r: Profile)
      reads this
      ensures profile.Some? ==> r == profile.value
      ensures profile.None? ==> r.name == "MarkMe User" && r.bio == "Write a brief description about yourself." && r.avatar.None?
    {
      profile.GetOr(DefaultProfile)
    }

    method SaveProfile(p: Profile)
      modifies this
      ensures GetProfile() == p
      ensures profile == Some(p) && docs == old(docs) && settings == old(settings) && docsWrites == old(docsWrites)
    {
      profile := Some(p);
    }

    /** The stored settings, or the default ones. */
    function GetSettings(): (r: Settings)
      reads this
      ensures settings.Some? ==> r == settings.value
      ensures settings.None? ==> r.theme == System && r.fontSize == "medium" && r.fontFamily == "fira-code" && r.autoSave
    {
      settings.GetOr(DefaultSettings)
    }

    method SaveSettings(s: Settings)
      modifies this
      ensures GetSettings() == s
      ensures settings == Some(s) && docs == old(docs) && profile == old(profile) && docsWrites == old(docsWrites)
    {
      settings := Some(s);
    }
  }
}
