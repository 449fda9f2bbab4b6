/**
 The BookStack importer: nested loops that create what the manifest lists and the state file does
 not yet track, saving the file after each creation, so that runs which abort anywhere can be
 repeated.

 Every API call meets one of three fates: it is served, it is refused without effect, or it takes
 effect but its answer is lost (which also stands for the script dying before it saves the file).
 */
module Importer {
  import opened Text

  type Id = x: int | x >= 1 witness 1

  /** The keys of state.books, state.chapters, state.pages and state.shelves. */
  datatype Key = BookKey(slug: string) | ChapterKey(path: string) | PageKey(path: string) | ShelfKey(name: string)

  /** The state file; shelfId is the field of the older, single-shelf format. */
  datatype State = State(tracked: map<Key, Id>, shelfId: Option<Id>)

  datatype Page = Page(slug: string, title: string, markdown: string)
  datatype Chapter = Chapter(slug: string, title: string, pages: seq<Page>)
  datatype Book = Book(slug: string, title: string, chapters: seq<Chapter>)
  datatype Manifest = Manifest(books: seq<Book>, shelves: seq<string>)

  datatype Fate = Served | Refused | Lost
  datatype Request = Get | Post(key: Key, refs: seq<Id>, name: string) | Put(shelf: Id, name: string, books: set<Id>)
  datatype Call = Call(request: Request, fate: Fate, answer: Option<Id>)

  datatype Shelf = Shelf(name: string, books: set<Id>)
  datatype Store = Store(books: map<Id, string>, shelves: map<Id, Shelf>)

  /** What outlives a run: the state file, the calls issued so far, and the server's content. */
  datatype World = World(file: State, log: seq<Call>, store: Store)

  function ChapterPath(b: Book, c: Chapter): string {
    b.slug + "/" + c.slug
  }

  function PagePath(b: Book, c: Chapter, p: Page): string {
    b.slug + "/" + c.slug + "/" + p.slug
  }

  // ---- What a run may do to the world ----

  /** The number of creations of this key that the script got an answer to. */
  function Answered(log: seq<Call>, k: Key): nat {
    if log == [] then 0
    else Answered(log[..|log| - 1], k) + if Creates(log[|log| - 1], k) && log[|log| - 1].fate.Served? then 1 else 0
  }

  /** The number of creations of this key that took effect without an answer. */
  function Unanswered(log: seq<Call>, k: Key): nat {
    if log == [] then 0
    else Unanswered(log[..|log| - 1], k) + if Creates(log[|log| - 1], k) && log[|log| - 1].fate.Lost? then 1 else 0
  }

  /** The number of objects the server made for this key. */
  function Made(log: seq<Call>, k: Key): nat {
    if log == [] then 0
    else Made(log[..|log| - 1], k) + if Creates(log[|log| - 1], k) && !log[|log| - 1].fate.Refused? then 1 else 0
  }

  predicate Creates(c: Call, k: Key) {
    c.request.Post? && c.request.key == k
  }

  function Holds(f: State, k: Key): nat {
    if k in f.tracked then 1 else 0
  }

  predicate IsAnswered(c: Call) {
    c.request.Post? && c.fate.Served?
  }

  /** The file tracks an answered creation under the id of the answer. */
  ghost predicate Noted(t: map<Key, Id>, c: Call) {
    IsAnswered(c) ==> c.request.key in t && c.answer == Some(t[c.request.key])
  }

  ghost predicate Keeps(a: map<Key, Id>, b: map<Key, Id>) {
    forall k | k in a :: k in b && b[k] == a[k]
  }

  ghost predicate TrackedBook(t: map<Key, Id>, id: Id) {
    exists slug :: BookKey(slug) in t && t[BookKey(slug)] == id
  }

  /** A creation refers to tracked parents only: a chapter to the book whose slug begins its path, a
      page to the chapter whose path begins its own, a shelf to tracked books. */
  ghost predicate Filed(t: map<Key, Id>, r: Request) {
    r.Post? ==>
      match r.key
      case BookKey(_) => r.refs == []
      case ChapterKey(path) =>
        |r.refs| == 1 && exists slug :: BookKey(slug) in t && t[BookKey(slug)] == r.refs[0] && slug + "/" <= path
      case PageKey(path) =>
        |r.refs| == 1 && exists up :: ChapterKey(up) in t && t[ChapterKey(up)] == r.refs[0] && up + "/" <= path
      case ShelfKey(_) => forall i | 0 <= i < |r.refs| :: TrackedBook(t, r.refs[i])
  }

  /** The state file only gains keys, and each key answers for at most one creation: the creations
      answered between two moments are no more than the keys gained between them. */
  ghost predicate Ledger(f: State, l: seq<Call>, f': State, l': seq<Call>) {
    && Keeps(f.tracked, f'.tracked)
    && (f'.shelfId.Some? ==> f'.shelfId == f.shelfId)
    && l <= l'
    && (forall k :: 0 <= Answered(l', k) - Answered(l, k) <= Holds(f', k) - Holds(f, k))
    && (forall i | |l| <= i < |l'| :: Filed(f'.tracked, l'[i].request) && Noted(f'.tracked, l'[i]))
  }

  /** Where a key may come from that no creation answers for: a reused book or shelf, or the shelf of
      the single-shelf format. */
  ghost predicate Adopted(force: bool, f: State, f': State, k: Key) {
    && k in f'.tracked
    && (|| (force && (k.BookKey? || k.ShelfKey?))
        || (k.ShelfKey? && f.shelfId == Some(f'.tracked[k])))
  }

  /** Every key gained was created and answered for, or adopted. */
  ghost predicate Sourced(force: bool, f: State, l: seq<Call>, f': State, l': seq<Call>) {
    forall k | k in f'.tracked && k !in f.tracked :: Answered(l', k) > Answered(l, k) || Adopted(force, f, f', k)
  }

  ghost predicate ShelvesGrow(s: Store, s': Store) {
    forall id | id in s.shelves :: id in s'.shelves && s.shelves[id].books <= s'.shelves[id].books
  }

  ghost predicate OnlyReads(w: World, w': World) {
    w'.store == w.store && forall i | |w.log| <= i < |w'.log| :: w'.log[i].request.Get?
  }

  /** The two switches of the command line, and the manifest. */
  datatype Job = Job(apply: bool, force: bool, m: Manifest)

  /** The manifest lists an object with this key. */
  predicate Listed(m: Manifest, k: Key) {
    match k
    case BookKey(slug) => exists b | b in m.books :: b.slug == slug
    case ChapterKey(path) => exists b, c | b in m.books && c in b.chapters :: ChapterPath(b, c) == path
    case PageKey(path) => exists b, c, p | b in m.books && c in b.chapters && p in c.pages :: PagePath(b, c, p) == path
    case ShelfKey(name) => name in m.shelves
  }

  /** The request creates this chapter of the manifest under its own book, or this page under its own
      chapter, with its title. */
  predicate OrdersChapter(t: map<Key, Id>, r: Request, b: Book, c: Chapter)
    requires r.Post?
  {
    && r.key == ChapterKey(b.slug + "/" + c.slug) && r.name == c.title
    && BookKey(b.slug) in t && r.refs == [t[BookKey(b.slug)]]
  }

  predicate OrdersPage(t: map<Key, Id>, r: Request, b: Book, c: Chapter, p: Page)
    requires r.Post?
  {
    && r.key == PageKey(b.slug + "/" + c.slug + "/" + p.slug) && r.name == p.title
    && ChapterKey(b.slug + "/" + c.slug) in t && r.refs == [t[ChapterKey(b.slug + "/" + c.slug)]]
  }

  /** Every creation is one that the manifest lists, in its place and with its title. */
  ghost predicate Ordered(m: Manifest, t: map<Key, Id>, r: Request) {
    r.Post? ==>
      match r.key
      case BookKey(slug) => r.refs == [] && exists b | b in m.books :: b.slug == slug && b.title == r.name
      case ChapterKey(_) => exists b, c | b in m.books && c in b.chapters :: OrdersChapter(t, r, b, c)
      case PageKey(_) => exists b, c, p | b in m.books && c in b.chapters && p in c.pages :: OrdersPage(t, r, b, c, p)
      case ShelfKey(name) => name in m.shelves && r.name == name
  }

  lemma OrderedStays(m: Manifest, t: map<Key, Id>, t': map<Key, Id>, r: Request)
    requires Keeps(t, t') && Ordered(m, t, r)
    ensures Ordered(m, t', r)
  {
    if r.Post? && r.key.ChapterKey? {
      var b, c :| b in m.books && c in b.chapters && OrdersChapter(t, r, b, c);
      assert OrdersChapter(t', r, b, c);
    }
    if r.Post? && r.key.PageKey? {
      var b, c, p :| b in m.books && c in b.chapters && p in c.pages && OrdersPage(t, r, b, c, p);
      assert OrdersPage(t', r, b, c, p);
    }
  }

  /** Only what the manifest lists is created or tracked. */
  ghost predicate Within(m: Manifest, w: World, w': World) {
    && (forall i | |w.log| <= i < |w'.log| :: Ordered(m, w'.file.tracked, w'.log[i].request))
    && (forall k | k in w'.file.tracked && k !in w.file.tracked :: Listed(m, k))
  }

  ghost predicate NoCreation(w: World, w': World) {
    |w.log| <= |w'.log| && forall i | |w.log| <= i < |w'.log| :: !w'.log[i].request.Post?
  }

  /** Shelves keep their names or get names of the manifest. */
  ghost predicate Renamed(m: Manifest, s: Store, s': Store) {
    forall id | id in s'.shelves ::
      (id in s.shelves && s'.shelves[id].name == s.shelves[id].name) || s'.shelves[id].name in m.shelves
  }

  ghost predicate Progress(job: Job, w: World, w': World) {
    && Ledger(w.file, w.log, w'.file, w'.log)
    && Sourced(job.force, w.file, w.log, w'.file, w'.log)
    && ShelvesGrow(w.store, w'.store)
    && Within(job.m, w, w') && Renamed(job.m, w.store, w'.store)
    && (NoCreation(w, w') ==> w'.store.shelves.Keys == w.store.shelves.Keys && (!job.force ==> w'.file == w.file))
    && (!job.apply ==> |w.log| <= |w'.log| && OnlyReads(w, w'))
  }

  lemma FiledStays(t: map<Key, Id>, t': map<Key, Id>, r: Request)
    requires Keeps(t, t') && Filed(t, r)
    ensures Filed(t', r)
  {
    if r.Post? && r.key.ShelfKey? {
      forall i | 0 <= i < |r.refs|
        ensures TrackedBook(t', r.refs[i])
      {
        assert TrackedBook(t, r.refs[i]);
        var slug :| BookKey(slug) in t && t[BookKey(slug)] == r.refs[i];
        assert BookKey(slug) in t';
      }
    }
  }

  lemma LedgerTrans(a: World, b: World, c: World)
    requires Ledger(a.file, a.log, b.file, b.log) && Ledger(b.file, b.log, c.file, c.log)
    ensures Ledger(a.file, a.log, c.file, c.log)
  {
    forall i | |a.log| <= i < |c.log|
      ensures Filed(c.file.tracked, c.log[i].request) && Noted(c.file.tracked, c.log[i])
    {
      if i < |b.log| {
        assert c.log[i] == b.log[i];
        FiledStays(b.file.tracked, c.file.tracked, b.log[i].request);
      }
    }
  }

  lemma WithinTrans(m: Manifest, a: World, b: World, c: World)
    requires Within(m, a, b) && Within(m, b, c) && Keeps(b.file.tracked, c.file.tracked) && b.log <= c.log
    ensures Within(m, a, c)
  {
    forall i | |a.log| <= i < |c.log|
      ensures Ordered(m, c.file.tracked, c.log[i].request)
    {
      if i < |b.log| {
        assert c.log[i] == b.log[i];
        OrderedStays(m, b.file.tracked, c.file.tracked, b.log[i].request);
      }
    }
    hide Ordered, Listed;
  }

  lemma ProgressTrans(job: Job, a: World, b: World, c: World)
    requires Progress(job, a, b) && Progress(job, b, c)
    ensures Progress(job, a, c)
  {
    LedgerTrans(a, b, c);
    WithinTrans(job.m, a, b, c);
    hide Within, Filed, Noted;
    assert forall i | |a.log| <= i < |b.log| :: c.log[i] == b.log[i];
    if NoCreation(a, c) {
      assert NoCreation(a, b) && NoCreation(b, c);
    }
  }

  lemma ProgressNone(job: Job, w: World)
    ensures Progress(job, w, w)
  {
  }

  lemma ProgressKeeps(job: Job, a: World, b: World)
    requires Progress(job, a, b)
    ensures Keeps(a.file.tracked, b.file.tracked) && ShelvesGrow(a.store, b.store) && a.log <= b.log
    ensures Renamed(job.m, a.store, b.store)
  {
  }

  lemma ProgressStore(job: Job, a: World, b: World)
    requires Progress(job, a, b)
    ensures !job.apply ==> b.store == a.store
  {
  }

  /** The books, chapters and pages of the state file change, the shelves do not. */
  ghost predicate SameShelves(f: State, f': State) {
    f'.shelfId == f.shelfId && forall n :: ShelfKey(n) in f'.tracked <==> ShelfKey(n) in f.tracked
  }

  lemma CountSnoc(log: seq<Call>, c: Call, k: Key)
    ensures Answered(log + [c], k) == Answered(log, k) + if Creates(c, k) && c.fate.Served? then 1 else 0
    ensures Unanswered(log + [c], k) == Unanswered(log, k) + if Creates(c, k) && c.fate.Lost? then 1 else 0
  {
    assert (log + [c])[..|log|] == log;
  }

  /** Every object made for a key was answered for or lost. */
  lemma {:induction false} MadeIsAnsweredOrLost(log: seq<Call>, k: Key)
    ensures Made(log, k) == Answered(log, k) + Unanswered(log, k)
  {
    if log != [] {
      MadeIsAnsweredOrLost(log[..|log| - 1], k);
    }
  }

  /** One more call that is not an answered creation, with the file as it was. */
  lemma CallProgress(job: Job, w: World, c: Call, store: Store)
    requires !IsAnswered(c)
    requires Filed(w.file.tracked, c.request)
    requires ShelvesGrow(w.store, store)
    requires c.request.Get? || job.apply
    requires c.request.Get? ==> store == w.store
    requires Ordered(job.m, w.file.tracked, c.request)
    requires Renamed(job.m, w.store, store) && (!c.request.Post? ==> store.shelves.Keys == w.store.shelves.Keys)
    ensures Progress(job, w, World(w.file, w.log + [c], store))
  {
    forall k
      ensures Answered(w.log + [c], k) == Answered(w.log, k)
    {
      CountSnoc(w.log, c, k);
    }
    assert (w.log + [c])[|w.log|] == c;
  }

  lemma CreationLedger(force: bool, w: World, c: Call, f: State)
    requires IsAnswered(c) && c.request.key !in w.file.tracked && Noted(f.tracked, c)
    requires Keeps(w.file.tracked, f.tracked) && (f.shelfId.Some? ==> f.shelfId == w.file.shelfId)
    requires forall k | k in f.tracked && k !in w.file.tracked && k != c.request.key :: Adopted(force, w.file, f, k)
    requires Filed(w.file.tracked, c.request)
    ensures Ledger(w.file, w.log, f, w.log + [c]) && Sourced(force, w.file, w.log, f, w.log + [c])
  {
    FiledStays(w.file.tracked, f.tracked, c.request);
    hide Filed;
    assert (w.log + [c])[|w.log|] == c;
    forall k
      ensures 0 <= Answered(w.log + [c], k) - Answered(w.log, k) <= Holds(f, k) - Holds(w.file, k)
      ensures k == c.request.key ==> Answered(w.log + [c], k) > Answered(w.log, k)
    {
      CountSnoc(w.log, c, k);
    }
  }

  /** An answered creation, together with the key it adds to the file. */
  lemma CreationProgress(job: Job, w: World, c: Call, store: Store, f: State)
    requires job.apply && IsAnswered(c)
    requires c.request.key !in w.file.tracked && Noted(f.tracked, c)
    requires Keeps(w.file.tracked, f.tracked) && (f.shelfId.Some? ==> f.shelfId == w.file.shelfId)
    requires forall k | k in f.tracked && k !in w.file.tracked && k != c.request.key :: Adopted(job.force, w.file, f, k)
    requires Filed(w.file.tracked, c.request)
    requires ShelvesGrow(w.store, store) && Renamed(job.m, w.store, store)
    requires forall k | k in f.tracked && k !in w.file.tracked :: Listed(job.m, k)
    requires Ordered(job.m, w.file.tracked, c.request)
    ensures Progress(job, w, World(f, w.log + [c], store))
  {
    CreationLedger(job.force, w, c, f);
    OrderedStays(job.m, w.file.tracked, f.tracked, c.request);
    hide Ordered;
    hide Ledger, Sourced, Filed, Listed, ShelvesGrow, Renamed;
    assert (w.log + [c])[|w.log|] == c;
  }

  lemma AdoptionProgress(job: Job, w: World, f: State)
    requires job.force && forall k | k in f.tracked && k !in w.file.tracked :: Listed(job.m, k)
    requires Keeps(w.file.tracked, f.tracked) && (f.shelfId.Some? ==> f.shelfId == w.file.shelfId)
    requires forall k | k in f.tracked && k !in w.file.tracked :: Adopted(job.force, w.file, f, k)
    ensures Progress(job, w, w.(file := f))
  {
  }

  /** Memory is ahead of the file by at most the migrated shelf. */
  ghost predicate Ahead(m: Manifest, file: State, mem: State) {
    && Keeps(file.tracked, mem.tracked) && mem.shelfId == file.shelfId
    && forall k | k in mem.tracked && k !in file.tracked ::
       k.ShelfKey? && Listed(m, k) && file.shelfId == Some(mem.tracked[k])
  }

  // ---- Coverage ----

  predicate HasShelf(t: map<Key, Id>) {
    exists k | k in t :: k.ShelfKey?
  }

  /** The soft migration from the single-shelf format, done in memory before the shelves. */
  function Migrated(s: State, shelves: seq<string>): State {
    if s.shelfId.Some? && !HasShelf(s.tracked) && shelves != []
    then s.(tracked := s.tracked[ShelfKey(shelves[0]) := s.shelfId.value])
    else s
  }

  predicate PagesDone(f: State, b: Book, c: Chapter, n: nat)
    requires n <= |c.pages|
  {
    forall i | 0 <= i < n :: PageKey(PagePath(b, c, c.pages[i])) in f.tracked
  }

  predicate ChapterDone(f: State, b: Book, c: Chapter) {
    ChapterKey(ChapterPath(b, c)) in f.tracked && PagesDone(f, b, c, |c.pages|)
  }

  predicate ChaptersDone(f: State, b: Book, n: nat)
    requires n <= |b.chapters|
  {
    forall i | 0 <= i < n :: ChapterDone(f, b, b.chapters[i])
  }

  predicate BookDone(f: State, b: Book) {
    BookKey(b.slug) in f.tracked && ChaptersDone(f, b, |b.chapters|)
  }

  predicate BooksDone(f: State, m: Manifest, n: nat)
    requires n <= |m.books|
  {
    forall i | 0 <= i < n :: BookDone(f, m.books[i])
  }

  predicate ShelvesDone(f: State, m: Manifest, n: nat)
    requires n <= |m.shelves|
  {
    forall i | 0 <= i < n :: ShelfKey(m.shelves[i]) in f.tracked
  }

  /** The file, as a run over this manifest reads it, tracks everything the manifest lists. */
  predicate Covers(f: State, m: Manifest) {
    BooksDone(f, m, |m.books|) && ShelvesDone(Migrated(f, m.shelves), m, |m.shelves|)
  }

  /** The shelf tracked under this name is on the server and holds the tracked book. */
  predicate OnShelf(f: State, store: Store, name: string, b: Book) {
    var k, bk := ShelfKey(name), BookKey(b.slug);
    && k in f.tracked && f.tracked[k] in store.shelves
    && bk in f.tracked && f.tracked[bk] in store.shelves[f.tracked[k]].books
  }

  /** The first n shelves of the manifest hold every book of the manifest. */
  predicate Shelved(f: State, store: Store, m: Manifest, n: nat)
    requires n <= |m.shelves|
  {
    forall i, j | 0 <= i < n && 0 <= j < |m.books| :: OnShelf(f, store, m.shelves[i], m.books[j])
  }

  lemma ShelvedStays(f: State, s: Store, g: State, t: Store, m: Manifest, n: nat)
    requires n <= |m.shelves| && Shelved(f, s, m, n)
    requires Keeps(f.tracked, g.tracked) && ShelvesGrow(s, t)
    ensures Shelved(g, t, m, n)
  {
    forall i, j | 0 <= i < n && 0 <= j < |m.books|
      ensures OnShelf(g, t, m.shelves[i], m.books[j])
    {
      assert OnShelf(f, s, m.shelves[i], m.books[j]);
    }
  }

  /** The collected ids are those of tracked books, and include the first n of the manifest. */
  ghost predicate Collected(f: State, m: Manifest, n: nat, ids: seq<Id>)
    requires n <= |m.books|
  {
    && (forall x | x in ids :: TrackedBook(f.tracked, x))
    && forall j | 0 <= j < n :: BookKey(m.books[j].slug) in f.tracked && f.tracked[BookKey(m.books[j].slug)] in ids
  }

  lemma DoneStays(f: State, g: State, m: Manifest, n: nat)
    requires Keeps(f.tracked, g.tracked) && n <= |m.books| && BooksDone(f, m, n)
    ensures BooksDone(g, m, n)
  {
  }

  lemma ChaptersStay(f: State, g: State, b: Book, n: nat)
    requires Keeps(f.tracked, g.tracked) && n <= |b.chapters| && ChaptersDone(f, b, n)
    ensures ChaptersDone(g, b, n)
  {
  }

  /** The names of the shelves on the server. */
  function Names(store: Store): set<string> {
    set id | id in store.shelves :: store.shelves[id].name
  }

  lemma ShelfWritten(m: Manifest, store: Store, id: Id, name: string, books: set<Id>)
    requires name in m.shelves && (id in store.shelves ==> store.shelves[id].books <= books)
    ensures var s := store.(shelves := store.shelves[id := Shelf(name, books)]);
            && ShelvesGrow(store, s) && Renamed(m, store, s) && Names(s) <= Names(store) + {name}
            && s.shelves.Keys == store.shelves.Keys + {id}
  {
  }

  /** No other shelf is in the way of this name. */
  predicate FreeName(f: State, store: Store, name: string) {
    ShelfKey(name) in f.tracked || name !in Names(store)
  }

  predicate AllFree(f: State, store: Store, m: Manifest) {
    forall i | 0 <= i < |m.shelves| :: FreeName(f, store, m.shelves[i])
  }

  /** Nothing on the server stops the run: the shelves it tracks are there, and without --force-reuse
      its books are tracked and no other shelf has a name it needs. */
  predicate Unhindered(job: Job, f: State, store: Store) {
    && AllOnServer(Migrated(f, job.m.shelves), store, job.m)
    && (job.force || (BooksDone(f, job.m, |job.m.books|) && AllFree(Migrated(f, job.m.shelves), store, job.m)))
  }

  /** A dry run leaves this book out of the state file: it is there already, or not on the server. */
  predicate NotReused(f: State, store: Store, b: Book) {
    BookKey(b.slug) in f.tracked || forall id | id in store.books :: store.books[id] != b.title
  }

  predicate NoneReused(f: State, store: Store, m: Manifest, n: nat)
    requires n <= |m.books|
  {
    forall i | 0 <= i < n :: NotReused(f, store, m.books[i])
  }

  lemma KeepsGrow(a: map<Key, Id>, b: map<Key, Id>, c: map<Key, Id>)
    requires Keeps(a, b) && Keeps(b, c)
    ensures a == c ==> a == b
  {
  }

  /** A shelf the script tracks under this name is on the server. */
  predicate OnServer(f: State, store: Store, name: string) {
    ShelfKey(name) in f.tracked ==> f.tracked[ShelfKey(name)] in store.shelves
  }

  predicate AllOnServer(f: State, store: Store, m: Manifest) {
    forall i | 0 <= i < |m.shelves| :: OnServer(f, store, m.shelves[i])
  }

  lemma FreshId(s: set<Id>) returns (above: Id)
    ensures forall x | x in s :: x < above
  {
    above := 1;
    var rest := s;
    while rest != {}
      invariant rest <= s
      invariant forall x | x in s && x !in rest :: x < above
      decreases |rest|
    {
      var x :| x in rest;
      if above <= x {
        above := x + 1;
      }
      rest := rest - {x};
    }
  }

  /** What the server holds after a creation; chapters and pages are not looked up again. */
  function Stored(store: Store, k: Key, id: Id, name: string, refs: seq<Id>): Store {
    match k
    case BookKey(_) => store.(books := store.books[id := name])
    case ShelfKey(_) => store.(shelves := store.shelves[id := Shelf(name, set x | x in refs)])
    case _ => store
  }

  lemma StoredFacts(store: Store, k: Key, id: Id, name: string, refs: seq<Id>)
    requires id !in store.shelves
    ensures var made := Stored(store, k, id, name, refs);
            && ShelvesGrow(store, made) && ShelvesGrow(store, store)
            && (k.ShelfKey? ==> made == store.(shelves := store.shelves[id := Shelf(name, set x | x in refs)]))
            && (!k.ShelfKey? ==> made.shelves == store.shelves)
            && (k.BookKey? ==> id in made.books && made.books[id] == name)
            && (k.ShelfKey? ==> id in made.shelves && forall x | x in refs :: x in made.shelves[id].books)
  {
  }

  lemma StoredNames(m: Manifest, store: Store, k: Key, id: Id, name: string, refs: seq<Id>)
    requires id !in store.shelves && (k.ShelfKey? ==> k.name == name && Listed(m, k))
    ensures var made := Stored(store, k, id, name, refs);
            && Renamed(m, store, made) && Renamed(m, store, store)
            && (k.ShelfKey? ==> Names(made) <= Names(store) + {name})
  {
    if k.ShelfKey? {
      ShelfWritten(m, store, id, name, set x | x in refs);
    }
  }

  /** The state after a key is tracked; a tracked shelf replaces the single-shelf id. */
  function Tracking(mem: State, k: Key, id: Id): State {
    State(mem.tracked[k := id], if k.ShelfKey? then None else mem.shelfId)
  }

  /** A creation of whatever fate: the file is saved with its key exactly if it was answered. */
  lemma CreationCall(job: Job, w: World, mem: State, c: Call, store: Store)
    requires job.apply && c.request.Post? && c.request.key !in mem.tracked && Ahead(job.m, w.file, mem)
    requires Filed(w.file.tracked, c.request) && ShelvesGrow(w.store, store)
    requires Listed(job.m, c.request.key) && Renamed(job.m, w.store, store)
    requires Ordered(job.m, w.file.tracked, c.request)
    requires c.answer.Some? <==> c.fate.Served?
    ensures Progress(job, w, World(if c.fate.Served? then Tracking(mem, c.request.key, c.answer.value) else w.file,
                                    w.log + [c], store))
  {
    if c.fate.Served? {
      var f := Tracking(mem, c.request.key, c.answer.value);
      assert Keeps(w.file.tracked, f.tracked);
      CreationProgress(job, w, c, store, f);
    } else {
      CallProgress(job, w, c, store);
    }
  }

  /** The loop over the books has run from w to w1. */
  ghost predicate BooksRun(job: Job, w: World, w1: World, ok: bool) {
    && Progress(job, w, w1) && SameShelves(w.file, w1.file)
    && (ok && job.apply ==> BooksDone(w1.file, job.m, |job.m.books|))
    && (BooksDone(w.file, job.m, |job.m.books|) ==> ok && w1 == w)
    && (!job.apply && !job.force ==> w1.file == w.file)
    && (ok && !job.apply && job.force ==> (w1.file == w.file <==> NoneReused(w.file, w.store, job.m, |job.m.books|)))
  }

  /** What the body of the loop over the books does. */
  ghost predicate BookRun(job: Job, b: Book, w: World, w': World, ok: bool, id: Option<Id>) {
    && Progress(job, w, w') && SameShelves(w.file, w'.file)
    && (ok && id.Some? ==> BookKey(b.slug) in w'.file.tracked && w'.file.tracked[BookKey(b.slug)] == id.value)
    && (ok && job.apply ==> id.Some? && BookDone(w'.file, b))
    && (BookDone(w.file, b) ==> ok && w' == w)
    && (!job.apply && !job.force ==> w'.file == w.file)
    && (ok && !job.apply && job.force ==> (w'.file == w.file <==> NotReused(w.file, w.store, b)))
  }

  /** What holds after the first i books. */
  ghost predicate AtBook(job: Job, w0: World, i: nat, ids: seq<Id>, w: World)
    requires i <= |job.m.books|
  {
    && Progress(job, w0, w) && SameShelves(w0.file, w.file) && (forall x | x in ids :: TrackedBook(w.file.tracked, x))
    && (job.apply ==> BooksDone(w.file, job.m, i) && Collected(w.file, job.m, i, ids))
    && (BooksDone(w0.file, job.m, |job.m.books|) ==> w == w0)
    && (!job.apply && !job.force ==> w.file == w0.file)
    && (!job.apply && job.force ==> (w.file == w0.file <==> NoneReused(w0.file, w0.store, job.m, i)))
  }

  lemma BooksBegin(job: Job, w: World)
    ensures AtBook(job, w, 0, [], w)
  {
    ProgressNone(job, w);
    hide Progress;
  }

  lemma BooksEnd(job: Job, w0: World, ids: seq<Id>, w: World)
    requires AtBook(job, w0, |job.m.books|, ids, w)
    ensures BooksRun(job, w0, w, true) && (forall x | x in ids :: TrackedBook(w.file.tracked, x))
    ensures job.apply ==> Collected(w.file, job.m, |job.m.books|, ids)
  {
    hide Progress;
  }

  lemma BookStep(job: Job, w0: World, i: nat, ids: seq<Id>, w: World, w': World, ok: bool, id: Option<Id>)
    requires i < |job.m.books| && AtBook(job, w0, i, ids, w) && BookRun(job, job.m.books[i], w, w', ok, id)
    ensures !ok ==> BooksRun(job, w0, w', false) && (forall x | x in ids :: TrackedBook(w'.file.tracked, x))
    ensures ok ==> AtBook(job, w0, i + 1, if id.Some? then ids + [id.value] else ids, w')
  {
    ProgressTrans(job, w0, w, w');
    ProgressKeeps(job, w, w');
    TrackedStay(w.file.tracked, w'.file.tracked, ids);
    if ok {
      BookCovered(job, w0, i, ids, w, w', id);
      BookReused(job, w0, i, ids, w, w', id);
      if id.Some? {
        IsTrackedBook(w'.file.tracked, job.m.books[i].slug);
      }
    }
    assert BooksDone(w0.file, job.m, |job.m.books|) ==> BookDone(w0.file, job.m.books[i]);
    hide Progress, TrackedBook, NoneReused, NotReused, BookDone, BooksDone, Collected;
  }

  lemma BookCovered(job: Job, w0: World, i: nat, ids: seq<Id>, w: World, w': World, id: Option<Id>)
    requires i < |job.m.books| && AtBook(job, w0, i, ids, w) && BookRun(job, job.m.books[i], w, w', true, id)
    ensures job.apply ==>
              && id.Some? && BooksDone(w'.file, job.m, i + 1) && Collected(w'.file, job.m, i + 1, ids + [id.value])
  {
    ProgressKeeps(job, w, w');
    TrackedStay(w.file.tracked, w'.file.tracked, ids);
    if job.apply {
      DoneStays(w.file, w'.file, job.m, i);
      IsTrackedBook(w'.file.tracked, job.m.books[i].slug);
    }
    hide Progress, TrackedBook, NotReused, BookDone;
  }

  lemma BookReused(job: Job, w0: World, i: nat, ids: seq<Id>, w: World, w': World, id: Option<Id>)
    requires i < |job.m.books| && AtBook(job, w0, i, ids, w) && BookRun(job, job.m.books[i], w, w', true, id)
    ensures !job.apply && job.force ==> (w'.file == w0.file <==> NoneReused(w0.file, w0.store, job.m, i + 1))
  {
    ProgressKeeps(job, w0, w);
    ProgressKeeps(job, w, w');
    ProgressStore(job, w0, w);
    KeepsGrow(w0.file.tracked, w.file.tracked, w'.file.tracked);
    hide Progress, TrackedBook, NotReused, BookDone, Keeps;
  }

  /** What the body of the loop over the shelves does. */
  ghost predicate Ensured(job: Job, name: string, ids: seq<Id>, t: State, w: World, t': State, w': World, ok: bool) {
    var k := ShelfKey(name);
    && t' == Migrated(w'.file, job.m.shelves) && Keeps(t.tracked, t'.tracked) && Progress(job, w, w')
    && (forall n | OnServer(t, w.store, n) :: OnServer(t', w'.store, n))
    && (ok ==> forall n | FreeName(t, w.store, n) :: FreeName(t', w'.store, n))
    && (ok && job.apply ==> k in t'.tracked && (ids != [] ==> Holding(w'.store, t'.tracked[k], name, ids)))
    && (k in t.tracked ==> w'.file == w.file && t' == t && NoCreation(w, w'))
    && (!job.apply ==> w'.file == w.file)
  }

  /** The shelf is on the server under this name and holds these books. */
  predicate Holding(store: Store, id: Id, name: string, ids: seq<Id>) {
    id in store.shelves && store.shelves[id].name == name && forall x | x in ids :: x in store.shelves[id].books
  }

  lemma MigratedIsAhead(m: Manifest, f: State)
    ensures Ahead(m, f, Migrated(f, m.shelves))
  {
  }

  /** A shelf of that name was looked for. */
  lemma NameFound(f: State, store: Store, name: string, ok: bool, found: Option<Id>)
    requires ok && found.Some? ==> found.value in store.shelves && store.shelves[found.value].name == name
    requires ShelfKey(name) !in f.tracked
    ensures ok && found.Some? ==> !FreeName(f, store, name)
  {
    if ok && found.Some? {
      assert store.shelves[found.value].name in Names(store);
    }
  }

  lemma EnsuredSame(job: Job, name: string, ids: seq<Id>, t: State, w: World, w': World, ok: bool)
    requires t == Migrated(w.file, job.m.shelves) && w'.file == w.file && Progress(job, w, w')
    requires ShelfKey(name) in t.tracked ==> NoCreation(w, w') && (ok ==> Names(w'.store) <= Names(w.store) + {name})
    requires ok && ShelfKey(name) !in t.tracked ==> w'.store == w.store && !job.apply
    requires ok && job.apply && ids != [] ==> Holding(w'.store, t.tracked[ShelfKey(name)], name, ids)
    ensures Ensured(job, name, ids, t, w, t, w', ok)
  {
    ProgressKeeps(job, w, w');
    hide Progress, Names, Migrated, Holding;
  }

  lemma EnsuredNew(job: Job, name: string, ids: seq<Id>, t: State, w: World, id: Id, w': World)
    requires job.apply && ShelfKey(name) !in t.tracked && t == Migrated(w.file, job.m.shelves) && Progress(job, w, w')
    requires w'.file == Tracking(t, ShelfKey(name), id) && Names(w'.store) <= Names(w.store) + {name}
    requires Holding(w'.store, id, name, ids)
    ensures Ensured(job, name, ids, t, w, w'.file, w', true)
  {
    ProgressKeeps(job, w, w');
    hide Progress, Names;
  }

  /** What holds of the loop over the shelves wherever it stops. */
  ghost predicate Stopped(job: Job, t0: State, w0: World, t: State, w: World) {
    && t == Migrated(w.file, job.m.shelves) && Keeps(t0.tracked, t.tracked) && Progress(job, w0, w)
    && (ShelvesDone(t0, job.m, |job.m.shelves|) ==> w.file == w0.file && t == t0 && NoCreation(w0, w))
    && (!job.apply ==> w.file == w0.file)
  }

  /** What holds after the first i shelves. */
  ghost predicate AtShelf(job: Job, ids: seq<Id>, t0: State, w0: World, i: nat, t: State, w: World)
    requires i <= |job.m.shelves|
  {
    && Stopped(job, t0, w0, t, w) && (forall x | x in ids :: TrackedBook(w.file.tracked, x))
    && (AllOnServer(t0, w0.store, job.m) ==> AllOnServer(t, w.store, job.m))
    && (AllFree(t0, w0.store, job.m) ==> AllFree(t, w.store, job.m))
    && (job.apply ==> Collected(w.file, job.m, |job.m.books|, ids))
    && (job.apply ==> ShelvesDone(t, job.m, i) && Shelved(t, w.store, job.m, i))
    && (job.apply && ids != [] ==> Named(t, w.store, job.m, i))
  }

  lemma ShelvesBegin(job: Job, ids: seq<Id>, t: State, w: World)
    requires t == Migrated(w.file, job.m.shelves) && forall x | x in ids :: TrackedBook(w.file.tracked, x)
    requires job.apply ==> Collected(w.file, job.m, |job.m.books|, ids)
    ensures AtShelf(job, ids, t, w, 0, t, w)
  {
    ProgressNone(job, w);
    hide Progress;
  }

  lemma ShelfNext(job: Job, ids: seq<Id>, t0: State, w0: World, i: nat, t: State, w: World)
    requires i < |job.m.shelves| && AtShelf(job, ids, t0, w0, i, t, w)
    ensures t == Migrated(w.file, job.m.shelves) && (forall x | x in ids :: TrackedBook(w.file.tracked, x))
    ensures job.m.shelves[i] in job.m.shelves
    ensures AllOnServer(t0, w0.store, job.m) ==> OnServer(t, w.store, job.m.shelves[i])
    ensures AllFree(t0, w0.store, job.m) ==> FreeName(t, w.store, job.m.shelves[i])
  {
  }

  lemma ShelvesEnd(job: Job, ids: seq<Id>, t0: State, w0: World, i: nat, t: State, w: World)
    requires i <= |job.m.shelves| && AtShelf(job, ids, t0, w0, i, t, w)
    ensures Stopped(job, t0, w0, t, w)
  {
  }

  lemma StillStopped(job: Job, name: string, ids: seq<Id>, t0: State, w0: World,
                     t: State, w: World, t': State, w': World, ok: bool)
    requires Stopped(job, t0, w0, t, w) && name in job.m.shelves && Ensured(job, name, ids, t, w, t', w', ok)
    ensures Stopped(job, t0, w0, t', w')
  {
    ProgressTrans(job, w0, w, w');
    ProgressKeeps(job, w0, w);
    ProgressKeeps(job, w, w');
    hide Progress;
    if ShelvesDone(t0, job.m, |job.m.shelves|) {
      assert ShelfKey(name) in t.tracked;
      assert forall i | |w0.log| <= i < |w.log| :: w'.log[i] == w.log[i];
    }
  }

  lemma StillOpen(job: Job, name: string, ids: seq<Id>, t: State, w: World, t': State, w': World)
    requires Ensured(job, name, ids, t, w, t', w', true)
    ensures AllOnServer(t, w.store, job.m) ==> AllOnServer(t', w'.store, job.m)
    ensures AllFree(t, w.store, job.m) ==> AllFree(t', w'.store, job.m)
  {
    hide Progress, FreeName, OnServer, Holding;
  }

  lemma ShelfFiled(job: Job, ids: seq<Id>, i: nat, t: State, w: World, t': State, w': World)
    requires job.apply && i < |job.m.shelves| && ShelvesDone(t, job.m, i) && Shelved(t, w.store, job.m, i)
    requires t == Migrated(w.file, job.m.shelves)
    requires (ids != [] ==> Named(t, w.store, job.m, i)) && Collected(w.file, job.m, |job.m.books|, ids)
    requires Ensured(job, job.m.shelves[i], ids, t, w, t', w', true)
    ensures Collected(w'.file, job.m, |job.m.books|, ids)
    ensures ShelvesDone(t', job.m, i + 1) && Shelved(t', w'.store, job.m, i + 1)
    ensures ids != [] ==> Named(t', w'.store, job.m, i + 1)
  {
    hide Progress, FreeName, OnServer, TrackedBook, Migrated, Named, Shelved, ShelvesGrow, Renamed;
    ProgressKeeps(job, w, w');
    TrackedStay(w.file.tracked, w'.file.tracked, ids);
    ShelvedStays(t, w.store, t', w'.store, job.m, i);
    NamedStays(t, w.store, t', w'.store, job.m, i, ids != []);
    MigratedAhead(w'.file, job.m.shelves);
    NextShelf(w'.file, t', w'.store, job.m, i, ids);
  }

  lemma MigratedAhead(f: State, shelves: seq<string>)
    ensures Keeps(f.tracked, Migrated(f, shelves).tracked)
  {
  }

  lemma ShelfStep(job: Job, ids: seq<Id>, t0: State, w0: World, i: nat,
                  t: State, w: World, t': State, w': World, ok: bool)
    requires i < |job.m.shelves| && AtShelf(job, ids, t0, w0, i, t, w)
    requires Ensured(job, job.m.shelves[i], ids, t, w, t', w', ok)
    ensures Stopped(job, t0, w0, t', w')
    ensures ok ==> AtShelf(job, ids, t0, w0, i + 1, t', w')
  {
    StillStopped(job, job.m.shelves[i], ids, t0, w0, t, w, t', w', ok);
    ProgressKeeps(job, w, w');
    TrackedStay(w.file.tracked, w'.file.tracked, ids);
    if ok {
      StillOpen(job, job.m.shelves[i], ids, t, w, t', w');
      if job.apply {
        ShelfFiled(job, ids, i, t, w, t', w');
      }
    }
    hide Progress, Stopped, Ensured, AllFree, AllOnServer, Named, Shelved, ShelvesDone, Collected, TrackedBook;
  }

  // ---- The script ----

  class Script {
    const job: Job
    const fate: nat -> Fate
    const readable: string -> bool
    var mem: State
    var file: State
    var log: seq<Call>
    var store: Store

    constructor (job: Job, fate: nat -> Fate, readable: string -> bool, w: World)
      ensures this.job == job && this.fate == fate && this.readable == readable
      ensures W() == w && mem == w.file
    {
      this.job, this.fate, this.readable := job, fate, readable;
      mem, file, log, store := w.file, w.file, w.log, w.store;
    }

    ghost function W(): World
      reads this
    {
      World(file, log, store)
    }

    /** Nothing fails: every call is served and every page file can be read. */
    ghost predicate Smooth() {
      (forall n :: fate(n).Served?) && (forall p :: readable(p))
    }

    /** A GET: its answer reads the store, or the script stops. */
    method Read() returns (ok: bool)
      modifies this`log
      ensures Progress(job, old(W()), W())
      ensures |log| == |old(log)| + 1 && log[..|old(log)|] == old(log) && log[|old(log)|].request == Get
      ensures ok <==> fate(|old(log)|).Served?
    {
      var c := Call(Get, fate(|log|), None);
      CallProgress(job, W(), c, store);
      log := log + [c];
      ok := c.fate.Served?;
    }

    /** state[key] = id, then the file is written. */
    method Track(k: Key, id: Id)
      modifies this`mem, this`file
      ensures mem == Tracking(old(mem), k, id) && file == mem
    {
      mem := State(mem.tracked[k := id], if k.ShelfKey? then None else mem.shelfId);
      file := mem;
    }

    /** A creation, and on success its record in the state file. */
    method Create(k: Key, refs: seq<Id>, name: string) returns (r: Option<Id>)
      requires job.apply && k !in mem.tracked && Ahead(job.m, file, mem) && Filed(file.tracked, Post(k, refs, name))
      requires Ordered(job.m, file.tracked, Post(k, refs, name))
      requires Listed(job.m, k) && (k.ShelfKey? ==> k.name == name)
      modifies this
      ensures Progress(job, old(W()), W())
      ensures r.None? ==> mem == old(mem) && file == old(file)
      ensures r.Some? <==> fate(|old(log)|).Served?
      ensures r.Some? ==>
                && mem == Tracking(old(mem), k, r.value) && file == mem
                && (k.BookKey? ==> r.value in store.books && store.books[r.value] == name)
                && (k.ShelfKey? ==>
                      r.value in store.shelves && forall x | x in refs :: x in store.shelves[r.value].books)
      ensures k.ShelfKey? ==> Names(store) <= Names(old(store)) + {name}
      ensures k.ShelfKey? && r.Some? ==> store.shelves[r.value].name == name
    {
      ghost var w, saved := W(), mem;
      var ids := store.books.Keys + store.shelves.Keys;
      ghost var top := FreshId(ids);
      assert top !in ids;
      var id: Id :| id !in ids;
      hide Progress, Ahead, Filed, Ordered, Stored, IsAnswered, Names, Listed, Renamed, ShelvesGrow;
      var c := Call(Post(k, refs, name), fate(|log|), if fate(|log|).Served? then Some(id) else None);
      var made := Stored(store, k, id, name, refs);
      StoredFacts(store, k, id, name, refs);
      StoredNames(job.m, store, k, id, name, refs);
      CreationCall(job, w, saved, c, if c.fate.Refused? then store else made);
      log := log + [c];
      r := None;
      if !c.fate.Refused? {
        store := made;
        if c.fate.Served? {
          Track(k, id);
          r := Some(id);
        }
      }
    }

    method FindBook(title: string) returns (ok: bool, found: Option<Id>)
      modifies this`log
      ensures Progress(job, old(W()), W())
      ensures Smooth() ==> ok
      ensures ok && found.Some? ==> found.value in store.books && store.books[found.value] == title
      ensures ok && found.None? ==> forall id | id in store.books :: store.books[id] != title
    {
      ok := Read();
      found := None;
      if id :| id in store.books && store.books[id] == title {
        found := Some(id);
      }
    }

    method FindShelf(name: string) returns (ok: bool, found: Option<Id>)
      modifies this`log
      ensures Progress(job, old(W()), W())
      ensures |log| == |old(log)| + 1 && log[..|old(log)|] == old(log) && log[|old(log)|].request == Get
      ensures Smooth() ==> ok
      ensures ok && found.Some? ==> found.value in store.shelves && store.shelves[found.value].name == name
      ensures ok && found.None? ==> forall id | id in store.shelves :: store.shelves[id].name != name
    {
      ok := Read();
      found := None;
      if id :| id in store.shelves && store.shelves[id].name == name {
        found := Some(id);
      }
    }

    /** ensureBook; the id is missing only in a dry run. */
    method EnsureBook(b: Book) returns (ok: bool, id: Option<Id>)
      requires mem == file && b in job.m.books
      modifies this
      ensures mem == file && Progress(job, old(W()), W()) && SameShelves(old(file), file)
      ensures ok && job.apply ==> id.Some?
      ensures Smooth() && (job.force || forall x | x in old(store).books :: old(store).books[x] != b.title) ==> ok
      ensures ok && id.Some? && BookKey(b.slug) !in old(file.tracked) ==>
                id.value in store.books && store.books[id.value] == b.title
      ensures ok && id.Some? ==> BookKey(b.slug) in file.tracked && file.tracked[BookKey(b.slug)] == id.value
      ensures BookKey(b.slug) in old(file.tracked) ==> ok && W() == old(W())
      ensures !job.apply && !job.force ==> file == old(file)
      ensures ok && !job.apply && job.force ==> (file == old(file) <==> NotReused(old(file), old(store), b))
    {
      var k := BookKey(b.slug);
      if k in mem.tracked {
        return true, Some(mem.tracked[k]);
      }
      ghost var w := W();
      var found;
      ok, found := FindBook(b.title);
      if !ok || (found.Some? && !job.force) {
        return false, None;
      }
      if found.Some? {
        ghost var w1 := W();
        Track(k, found.value);
        AdoptionProgress(job, w1, file);
        ProgressTrans(job, w, w1, W());
        return true, found;
      }
      if !job.apply {
        return true, None;
      }
      ghost var w1 := W();
      id := Create(k, [], b.title);
      ok := id.Some?;
      ProgressTrans(job, w, w1, W());
    }

    /** ensureChapter, called only when there is a book id. */
    method EnsureChapter(bookId: Id, b: Book, c: Chapter) returns (ok: bool, id: Option<Id>)
      requires mem == file && b in job.m.books && c in b.chapters
      requires BookKey(b.slug) in file.tracked && file.tracked[BookKey(b.slug)] == bookId
      modifies this
      ensures mem == file && Progress(job, old(W()), W()) && SameShelves(old(file), file)
      ensures ok && job.apply ==> id.Some?
      ensures Smooth() ==> ok
      ensures ok && id.Some? ==>
                ChapterKey(ChapterPath(b, c)) in file.tracked && file.tracked[ChapterKey(ChapterPath(b, c))] == id.value
      ensures ChapterKey(ChapterPath(b, c)) in old(file.tracked) ==> ok && W() == old(W())
      ensures !job.apply ==> file == old(file)
    {
      var k := ChapterKey(ChapterPath(b, c));
      if k in mem.tracked {
        return true, Some(mem.tracked[k]);
      }
      if !job.apply {
        return true, None;
      }
      assert b.slug + "/" <= ChapterPath(b, c);
      assert OrdersChapter(file.tracked, Post(k, [bookId], c.title), b, c);
      id := Create(k, [bookId], c.title);
      ok := id.Some?;
    }

    /** ensurePage, reached with no chapter id only in a dry run. */
    method EnsurePage(chapterId: Option<Id>, b: Book, c: Chapter, p: Page) returns (ok: bool)
      requires mem == file && b in job.m.books && c in b.chapters && p in c.pages
      requires job.apply ==> chapterId.Some?
      requires chapterId.Some? ==>
                 && ChapterKey(ChapterPath(b, c)) in file.tracked
                 && file.tracked[ChapterKey(ChapterPath(b, c))] == chapterId.value
      modifies this
      ensures mem == file && Progress(job, old(W()), W()) && SameShelves(old(file), file)
      ensures Smooth() ==> ok
      ensures ok && job.apply ==> PageKey(PagePath(b, c, p)) in file.tracked
      ensures PageKey(PagePath(b, c, p)) in old(file.tracked) ==> ok && W() == old(W())
      ensures !job.apply ==> file == old(file)
    {
      var k := PageKey(PagePath(b, c, p));
      if k in mem.tracked {
        return true;
      }
      if !readable(p.markdown) {
        return false;
      }
      if !job.apply {
        return true;
      }
      var up := ChapterPath(b, c);
      assert PagePath(b, c, p) == up + "/" + p.slug;
      assert up + "/" <= PagePath(b, c, p);
      assert OrdersPage(file.tracked, Post(k, [chapterId.value], p.title), b, c, p);
      var id := Create(k, [chapterId.value], p.title);
      ok := id.Some?;
    }

    method ImportPages(chapterId: Option<Id>, b: Book, c: Chapter) returns (ok: bool)
      requires mem == file && b in job.m.books && c in b.chapters
      requires job.apply ==> chapterId.Some?
      requires chapterId.Some? ==>
                 && ChapterKey(ChapterPath(b, c)) in file.tracked
                 && file.tracked[ChapterKey(ChapterPath(b, c))] == chapterId.value
      modifies this
      ensures mem == file && Progress(job, old(W()), W()) && SameShelves(old(file), file)
      ensures Smooth() ==> ok
      ensures ok && job.apply ==> PagesDone(file, b, c, |c.pages|)
      ensures PagesDone(old(file), b, c, |c.pages|) ==> ok && W() == old(W())
      ensures !job.apply ==> file == old(file)
    {
      hide Progress, Smooth;
      ProgressNone(job, W());
      ok := true;
      for i := 0 to |c.pages|
        invariant mem == file && Progress(job, old(W()), W()) && SameShelves(old(file), file)
        invariant job.apply ==> PagesDone(file, b, c, i)
        invariant PagesDone(old(file), b, c, |c.pages|) ==> W() == old(W())
        invariant !job.apply ==> file == old(file)
      {
        ghost var w := W();
        ProgressKeeps(job, old(W()), w);
        ok := EnsurePage(chapterId, b, c, c.pages[i]);
        ProgressKeeps(job, w, W());
        ProgressTrans(job, old(W()), w, W());
        if !ok {
          return;
        }
      }
      ok := true;
    }

    method ImportChapters(bookId: Option<Id>, b: Book) returns (ok: bool)
      requires mem == file && b in job.m.books
      requires job.apply ==> bookId.Some?
      requires bookId.Some? ==> BookKey(b.slug) in file.tracked && file.tracked[BookKey(b.slug)] == bookId.value
      modifies this
      ensures mem == file && Progress(job, old(W()), W()) && SameShelves(old(file), file)
      ensures Smooth() ==> ok
      ensures ok && job.apply ==> ChaptersDone(file, b, |b.chapters|)
      ensures ChaptersDone(old(file), b, |b.chapters|) ==> ok && W() == old(W())
      ensures !job.apply ==> file == old(file)
    {
      hide Progress, Smooth;
      ProgressNone(job, W());
      ok := true;
      for i := 0 to |b.chapters|
        invariant mem == file && Progress(job, old(W()), W()) && SameShelves(old(file), file)
        invariant job.apply ==> ChaptersDone(file, b, i)
        invariant ChaptersDone(old(file), b, |b.chapters|) ==> W() == old(W())
        invariant !job.apply ==> file == old(file)
      {
        var c := b.chapters[i];
        var id: Option<Id> := None;
        ghost var start := W();
        if bookId.Some? {
          ghost var w := W();
          ProgressKeeps(job, old(W()), w);
          ok, id := EnsureChapter(bookId.value, b, c);
          ProgressKeeps(job, w, W());
          ProgressTrans(job, old(W()), w, W());
          if !ok {
            return;
          }
        }
        ghost var w := W();
        ok := ImportPages(id, b, c);
        ProgressKeeps(job, w, W());
        ProgressTrans(job, old(W()), w, W());
        if !ok {
          return;
        }
        if job.apply {
          ChaptersStay(start.file, file, b, i);
        }
      }
      ok := true;
    }

    /** The body of the loop over the books. */
    method ImportBook(b: Book) returns (ok: bool, id: Option<Id>)
      requires mem == file && b in job.m.books
      modifies this
      ensures mem == file && BookRun(job, b, old(W()), W(), ok, id)
      ensures Smooth() && job.force ==> ok
    {
      hide Progress, Smooth, NotReused;
      ghost var w := W();
      ok, id := EnsureBook(b);
      if !ok {
        return;
      }
      ghost var w1 := W();
      ProgressKeeps(job, w, w1);
      ok := ImportChapters(id, b);
      ProgressKeeps(job, w1, W());
      ProgressTrans(job, w, w1, W());
    }

    method ImportBooks() returns (ok: bool, ids: seq<Id>)
      requires mem == file
      modifies this
      ensures mem == file && BooksRun(job, old(W()), W(), ok)
      ensures forall x | x in ids :: TrackedBook(file.tracked, x)
      ensures Smooth() && job.force ==> ok
      ensures ok && job.apply ==> Collected(file, job.m, |job.m.books|, ids)
    {
      BooksBegin(job, W());
      hide AtBook, BookRun, BooksRun, TrackedBook, Collected, Progress, Smooth;
      ok, ids := true, [];
      for i := 0 to |job.m.books|
        invariant mem == file && AtBook(job, old(W()), i, ids, W())
      {
        ghost var w := W();
        var id;
        ok, id := ImportBook(job.m.books[i]);
        BookStep(job, old(W()), i, ids, w, W(), ok, id);
        if !ok {
          return;
        }
        if id.Some? {
          ids := ids + [id.value];
        }
      }
      ok := true;
      BooksEnd(job, old(W()), ids, W());
    }

    /** mergeBooksIntoShelf: read the shelf's books, then write back their union with the new ones. */
    method MergeBooksIntoShelf(id: Id, name: string, ids: seq<Id>) returns (ok: bool)
      requires job.apply && name in job.m.shelves
      modifies this`log, this`store
      ensures Progress(job, old(W()), W()) && NoCreation(old(W()), W())
      ensures Smooth() && id in old(store).shelves ==> ok
      ensures ok ==> id in store.shelves && forall x | x in ids :: x in store.shelves[id].books
      ensures ok ==> store.shelves[id].name == name
      ensures ok ==> log != [] && log[|log| - 1].request == Put(id, name, store.shelves[id].books)
      ensures ok ==>
                && id in old(store).shelves
                && forall x | x in store.shelves[id].books :: x in ids || x in old(store).shelves[id].books
      ensures Names(store) <= Names(old(store)) + {name}
    {
      hide Progress, Names;
      ghost var w := W();
      ok := Read();
      if !ok || id !in store.shelves {
        return false;
      }
      var current := store.shelves[id].books;
      var merged := current + set x | x in ids;
      var c := Call(Put(id, name, merged), fate(|log|), None);
      var written := store.(shelves := store.shelves[id := Shelf(name, merged)]);
      ShelfWritten(job.m, store, id, name, merged);
      ghost var w1 := W();
      CallProgress(job, w1, c, if c.fate.Refused? then store else written);
      log := log + [c];
      if !c.fate.Refused? {
        store := written;
      }
      ok := c.fate.Served?;
      ProgressTrans(job, w, w1, W());
    }

    /** The body of the loop over the shelves. */
    method EnsureShelf(name: string, ids: seq<Id>) returns (ok: bool)
      requires mem == Migrated(file, job.m.shelves) && forall x | x in ids :: TrackedBook(file.tracked, x)
      requires name in job.m.shelves
      modifies this
      ensures Ensured(job, name, ids, old(mem), old(W()), mem, W(), ok)
      ensures var free := job.force || FreeName(old(mem), old(store), name);
              Smooth() && free && OnServer(old(mem), old(store), name) ==> ok
    {
      hide Progress, Ensured, Names;
      var k := ShelfKey(name);
      ghost var t, w := mem, W();
      MigratedIsAhead(job.m, file);
      ProgressNone(job, w);
      ok := true;
      if k in mem.tracked {
        if job.apply && ids != [] {
          ok := MergeBooksIntoShelf(mem.tracked[k], name, ids);
        }
        EnsuredSame(job, name, ids, t, w, W(), ok);
        return;
      }
      var found;
      ok, found := FindShelf(name);
      NameFound(mem, store, name, ok, found);
      if !ok || (found.Some? && !job.force) || !job.apply {
        ok := ok && !(found.Some? && !job.force);
        EnsuredSame(job, name, ids, t, w, W(), ok);
        return;
      }
      ghost var w1 := W();
      if found.Some? {
        ok := MergeBooksIntoShelf(found.value, name, ids);
        ProgressTrans(job, w, w1, W());
        if !ok {
          EnsuredSame(job, name, ids, t, w, W(), ok);
          return;
        }
        ghost var w2 := W();
        Track(k, found.value);
        AdoptionProgress(job, w2, file);
        ProgressTrans(job, w, w2, W());
        EnsuredNew(job, name, ids, t, w, found.value, W());
      } else {
        var id := Create(k, ids, name);
        ok := id.Some?;
        ProgressTrans(job, w, w1, W());
        if !ok {
          EnsuredSame(job, name, ids, t, w, W(), ok);
        } else {
          EnsuredNew(job, name, ids, t, w, id.value, W());
        }
      }
    }

    method ImportShelves(ids: seq<Id>) returns (ok: bool)
      requires mem == Migrated(file, job.m.shelves) && forall x | x in ids :: TrackedBook(file.tracked, x)
      requires job.apply ==> Collected(file, job.m, |job.m.books|, ids)
      modifies this
      ensures Stopped(job, old(mem), old(W()), mem, W())
      ensures ok ==> AtShelf(job, ids, old(mem), old(W()), |job.m.shelves|, mem, W())
      ensures var free := job.force || AllFree(old(mem), old(store), job.m);
              Smooth() && free && AllOnServer(old(mem), old(store), job.m) ==> ok
    {
      ShelvesBegin(job, ids, mem, W());
      hide *;
      ok := true;
      for i := 0 to |job.m.shelves|
        invariant AtShelf(job, ids, old(mem), old(W()), i, mem, W())
      {
        ghost var t, w := mem, W();
        ShelfNext(job, ids, old(mem), old(W()), i, t, w);
        ok := EnsureShelf(job.m.shelves[i], ids);
        ShelfStep(job, ids, old(mem), old(W()), i, t, w, mem, W(), ok);
        if !ok {
          return;
        }
      }
      ok := true;
      ShelvesEnd(job, ids, old(mem), old(W()), |job.m.shelves|, mem, W());
    }

    /** main */
    method Run() returns (ok: bool)
      requires mem == file
      modifies this
      ensures Smooth() && Unhindered(job, old(file), old(store)) ==> ok
      ensures RunOf(RunRecord(job, old(W()), W(), ok))
    {
      hide Progress, Smooth, AtShelf, Stopped, RunOf, Migrated, AllFree, AllOnServer, BooksDone;
      ghost var w := W();
      var ids;
      ok, ids := ImportBooks();
      ghost var w1 := W();
      if !ok {
        RunStopsInBooks(job, w, w1);
        return;
      }
      mem := Migrated(mem, job.m.shelves);
      ok := ImportShelves(ids);
      RunEnds(job, w, w1, ids, mem, W(), ok);
      UnhinderedLater(job, w, w1);
    }
  }

  lemma TrackedStay(t: map<Key, Id>, t': map<Key, Id>, ids: seq<Id>)
    requires Keeps(t, t') && forall x | x in ids :: TrackedBook(t, x)
    ensures forall x | x in ids :: TrackedBook(t', x)
  {
    forall x | x in ids
      ensures TrackedBook(t', x)
    {
      var slug :| BookKey(slug) in t && t[BookKey(slug)] == x;
      assert BookKey(slug) in t';
    }
  }

  /** The first n shelves of the manifest are on the server under names of the manifest. */
  predicate Named(f: State, store: Store, m: Manifest, n: nat)
    requires n <= |m.shelves|
  {
    forall i | 0 <= i < n ::
      var k := ShelfKey(m.shelves[i]);
      k in f.tracked && f.tracked[k] in store.shelves && store.shelves[f.tracked[k]].name in m.shelves
  }

  lemma MigratedKeeps(f: State, g: State, shelves: seq<string>)
    requires Keeps(f.tracked, g.tracked) && SameShelves(f, g)
    ensures Keeps(Migrated(f, shelves).tracked, Migrated(g, shelves).tracked)
  {
    assert HasShelf(g.tracked) ==> HasShelf(f.tracked) by {
      if k :| k in g.tracked && k.ShelfKey? {
        assert ShelfKey(k.name) in f.tracked;
      }
    }
  }

  lemma NamedStays(f: State, s: Store, g: State, t: Store, m: Manifest, i: nat, some: bool)
    requires i < |m.shelves| && Keeps(f.tracked, g.tracked) && ShelvesGrow(s, t) && Renamed(m, s, t)
    requires some ==> Named(f, s, m, i)
    requires var k := ShelfKey(m.shelves[i]);
             some ==> k in g.tracked && g.tracked[k] in t.shelves && t.shelves[g.tracked[k]].name == m.shelves[i]
    ensures some ==> Named(g, t, m, i + 1)
  {
  }

  lemma IsTrackedBook(t: map<Key, Id>, slug: string)
    requires BookKey(slug) in t
    ensures TrackedBook(t, t[BookKey(slug)])
  {
  }

  lemma NextShelf(f: State, t: State, store: Store, m: Manifest, i: nat, ids: seq<Id>)
    requires i < |m.shelves| && Shelved(t, store, m, i) && Keeps(f.tracked, t.tracked)
    requires Collected(f, m, |m.books|, ids)
    requires var k := ShelfKey(m.shelves[i]);
             && k in t.tracked
             && (ids != [] ==>
                   t.tracked[k] in store.shelves && forall x | x in ids :: x in store.shelves[t.tracked[k]].books)
    ensures Shelved(t, store, m, i + 1)
  {
  }

  // ---- Whole runs, and runs after runs ----

  datatype RunRecord = RunRecord(job: Job, before: World, after: World, ok: bool)

  /** What one run of the script does to the world. */
  ghost predicate RunOf(r: RunRecord) {
    && Progress(r.job, r.before, r.after)
    && (!r.job.apply && !r.job.force ==> r.after.file == r.before.file)
    && (r.ok && !r.job.apply && r.job.force ==>
          (r.after.file == r.before.file <==> NoneReused(r.before.file, r.before.store, r.job.m, |r.job.m.books|)))
    && (r.ok && r.job.apply ==>
          && Covers(r.after.file, r.job.m)
          && Shelved(Migrated(r.after.file, r.job.m.shelves), r.after.store, r.job.m, |r.job.m.shelves|))
    && (r.ok && r.job.apply && r.job.m.books != [] ==>
          Named(Migrated(r.after.file, r.job.m.shelves), r.after.store, r.job.m, |r.job.m.shelves|))
    && Keeps(Migrated(r.before.file, r.job.m.shelves).tracked, Migrated(r.after.file, r.job.m.shelves).tracked)
    && (Covers(r.before.file, r.job.m) ==> r.after.file == r.before.file && NoCreation(r.before, r.after))
  }

  lemma RunStopsInBooks(job: Job, w: World, w1: World)
    requires BooksRun(job, w, w1, false)
    ensures RunOf(RunRecord(job, w, w1, false))
  {
    ProgressKeeps(job, w, w1);
    MigratedKeeps(w.file, w1.file, job.m.shelves);
    hide Progress, BooksDone;
  }

  lemma RunEnds(job: Job, w: World, w1: World, ids: seq<Id>, t: State, w2: World, ok: bool)
    requires BooksRun(job, w, w1, true) && Stopped(job, Migrated(w1.file, job.m.shelves), w1, t, w2)
    requires job.apply ==> Collected(w1.file, job.m, |job.m.books|, ids)
    requires ok ==> AtShelf(job, ids, Migrated(w1.file, job.m.shelves), w1, |job.m.shelves|, t, w2)
    ensures RunOf(RunRecord(job, w, w2, ok))
  {
    hide Progress, Migrated, Named, Shelved, TrackedBook, BookDone, NotReused;
    hide AllFree, AllOnServer, ShelvesGrow, Renamed;
    ProgressKeeps(job, w, w1);
    ProgressKeeps(job, w1, w2);
    ProgressTrans(job, w, w1, w2);
    MigratedKeeps(w.file, w1.file, job.m.shelves);
    if job.apply {
      DoneStays(w1.file, w2.file, job.m, |job.m.books|);
      assert job.m.books != [] ==> w1.file.tracked[BookKey(job.m.books[0].slug)] in ids;
    }
  }

  lemma UnhinderedLater(job: Job, w: World, w1: World)
    requires BooksRun(job, w, w1, true)
    ensures Unhindered(job, w.file, w.store) ==>
              && AllOnServer(Migrated(w1.file, job.m.shelves), w1.store, job.m)
              && (job.force || AllFree(Migrated(w1.file, job.m.shelves), w1.store, job.m))
  {
    ProgressKeeps(job, w, w1);
    hide Progress;
  }

  /** Runs in sequence: anything may happen to the server in between, nothing to the state file. */
  ghost predicate Chain(rs: seq<RunRecord>) {
    && (forall i | 0 <= i < |rs| :: RunOf(rs[i]))
    && forall i | 0 < i < |rs| :: rs[i].before.file == rs[i - 1].after.file && rs[i].before.log == rs[i - 1].after.log
  }

  lemma {:induction false} ChainLedger(rs: seq<RunRecord>)
    requires rs != [] && Chain(rs)
    ensures Ledger(rs[0].before.file, rs[0].before.log, rs[|rs| - 1].after.file, rs[|rs| - 1].after.log)
  {
    if |rs| > 1 {
      var most := rs[..|rs| - 1];
      ChainLedger(most);
      var last := rs[|rs| - 1];
      assert RunOf(last);
      LedgerTrans(rs[0].before, most[|most| - 1].after, last.after);
    }
  }

  /** Over any sequence of runs, of any manifests and modes, aborting anywhere: a key already in the
      file is never created again, and each other key is answered for at most once. Beyond
      that the server makes only objects whose answer was lost. */
  lemma CreatedAtMostOnce(rs: seq<RunRecord>, k: Key)
    requires rs != [] && Chain(rs) && rs[0].before.log == []
    ensures var log := rs[|rs| - 1].after.log;
            && Made(log, k) <= 1 - Holds(rs[0].before.file, k) + Unanswered(log, k)
            && (Answered(log, k) == 1 ==> k in rs[|rs| - 1].after.file.tracked)
  {
    ChainLedger(rs);
    MadeIsAnsweredOrLost(rs[|rs| - 1].after.log, k);
  }

  lemma RunGains(r: RunRecord, k: Key)
    requires RunOf(r) && !r.job.force && r.before.file.shelfId.None?
    ensures Answered(r.after.log, k) - Answered(r.before.log, k) == Holds(r.after.file, k) - Holds(r.before.file, k)
  {
    hide Covers, Within, Renamed, Filed;
  }

  /** Without --force-reuse and without a single-shelf id, the file tracks exactly what was created:
      every key gained is one answered creation. */
  lemma {:induction false} TrackedMeansCreated(rs: seq<RunRecord>, k: Key)
    requires rs != [] && Chain(rs) && rs[0].before.file.shelfId.None?
    requires forall i | 0 <= i < |rs| :: !rs[i].job.force
    ensures var before, after := rs[0].before, rs[|rs| - 1].after;
            Answered(after.log, k) - Answered(before.log, k) == Holds(after.file, k) - Holds(before.file, k)
  {
    var last := rs[|rs| - 1];
    assert RunOf(last);
    hide RunOf, Progress;
    if |rs| > 1 {
      var most := rs[..|rs| - 1];
      TrackedMeansCreated(most, k);
      ChainLedger(most);
    }
    RunGains(last, k);
  }

  /** Every creation issued in a sequence of runs refers to parents the final file tracks, and its
      answer is what the file tracks for it. */
  lemma CreationsAreFiled(rs: seq<RunRecord>, i: nat)
    requires rs != [] && Chain(rs) && rs[0].before.log == []
    requires i < |rs[|rs| - 1].after.log|
    ensures Filed(rs[|rs| - 1].after.file.tracked, rs[|rs| - 1].after.log[i].request)
    ensures Noted(rs[|rs| - 1].after.file.tracked, rs[|rs| - 1].after.log[i])
  {
    ChainLedger(rs);
  }

  /** An apply run without --force-reuse that completes creates nothing exactly if the file covered
      the manifest before. */
  lemma CreatesNothingIffCovered(r: RunRecord)
    requires RunOf(r) && r.ok && r.job.apply && !r.job.force
    ensures NoCreation(r.before, r.after) <==> Covers(r.before.file, r.job.m)
  {
  }

  /** A completed dry run leaves the state file alone exactly if nothing is to be reused: without
      --force-reuse, or when no untracked book of the manifest has its title on the server. It
      issues only GETs in any case. */
  lemma DryRunKeepsFile(r: RunRecord)
    requires RunOf(r) && r.ok && !r.job.apply
    ensures r.after.file == r.before.file <==>
              !r.job.force || NoneReused(r.before.file, r.before.store, r.job.m, |r.job.m.books|)
    ensures OnlyReads(r.before, r.after)
  {
  }

  /** A run over this manifest takes the single-shelf id for its first shelf. */
  predicate Migrates(f: State, m: Manifest) {
    f.shelfId.Some? && !HasShelf(f.tracked) && m.shelves != []
  }

  /** A covered manifest stays covered as the file grows, unless its first shelf is known by the
      single-shelf id only and that id has gone to another shelf. */
  lemma CoverageStays(f: State, g: State, m: Manifest)
    requires Keeps(f.tracked, g.tracked) && (g.shelfId.Some? ==> g.shelfId == f.shelfId) && Covers(f, m)
    ensures Covers(g, m) <==> (Migrates(f, m) ==> Migrates(g, m) || ShelfKey(m.shelves[0]) in g.tracked)
  {
    DoneStays(f, g, m, |m.books|);
    if Migrates(f, m) {
      assert forall i | 0 <= i < |m.shelves| :: ShelfKey(m.shelves[i]) in Migrated(f, m.shelves).tracked;
      assert forall i | 0 <= i < |m.shelves| :: m.shelves[i] == m.shelves[0];
    }
  }

  /** After a completed apply run and any other runs, a run of the same manifest creates nothing and
      leaves the file alone, unless the single-shelf id stood for its first shelf and has gone to
      another; and then, if it completes without --force-reuse, it does create. */
  lemma RerunCreatesNothing(rs: seq<RunRecord>)
    requires |rs| >= 2 && Chain(rs)
    requires rs[0].ok && rs[0].job.apply && rs[|rs| - 1].job.m == rs[0].job.m
    ensures var last, f, m := rs[|rs| - 1], rs[0].after.file, rs[0].job.m;
            var g := last.before.file;
            var lost := Migrates(f, m) && !Migrates(g, m) && ShelfKey(m.shelves[0]) !in g.tracked;
            && (!lost ==> NoCreation(last.before, last.after) && last.after.file == g)
            && (last.ok && last.job.apply && !last.job.force ==> (NoCreation(last.before, last.after) <==> !lost))
  {
    var last := rs[|rs| - 1];
    assert RunOf(rs[0]) && RunOf(last);
    if |rs| > 2 {
      var middle := rs[1..|rs| - 1];
      ChainLedger(middle);
    }
    CoverageStays(rs[0].after.file, last.before.file, rs[0].job.m);
  }

  // ---- What a completed run has created ----

  predicate Plain(slug: string) {
    '/' !in slug
  }

  /** Keys of different chapters and pages differ: without slashes, the slugs can be read off a key. */
  lemma PathsDiffer(b: string, c: string, p: string, b': string, c': string, p': string)
    requires Plain(b) && Plain(c) && Plain(p) && Plain(b') && Plain(c') && Plain(p')
    ensures b + "/" + c == b' + "/" + c' <==> b == b' && c == c'
    ensures b + "/" + c + "/" + p == b' + "/" + c' + "/" + p' <==> b == b' && c == c' && p == p'
  {
    PathParts(b, c, p);
    PathParts(b', c', p');
    assert [b, c][0] == b && [b, c][1] == c && [b', c'][0] == b' && [b', c'][1] == c';
    assert [b, c, p][0] == b && [b, c, p][1] == c && [b, c, p][2] == p;
    assert [b', c', p'][0] == b' && [b', c', p'][1] == c' && [b', c', p'][2] == p';
    hide Split;
  }

  lemma PathParts(b: string, c: string, p: string)
    requires Plain(b) && Plain(c) && Plain(p)
    ensures Split(b + "/" + c, '/') == [b, c] && Split(b + "/" + c + "/" + p, '/') == [b, c, p]
  {
    SplitWhole(c, '/');
    SplitHead(b, c, '/');
    SplitWhole(p, '/');
    SplitHead(c, p, '/');
    SplitHead(b, c + "/" + p, '/');
    assert b + "/" + c == b + ['/'] + c && c + "/" + p == c + ['/'] + p;
    assert b + "/" + c + "/" + p == b + ['/'] + (c + "/" + p);
    assert [b] + [c] == [b, c] && [b] + ([c] + [p]) == [b, c, p];
  }

  /** With a slash in a slug two chapters can share a key, and the second is taken for the first. */
  lemma SlashCollides(x: string, y: string, z: string)
    ensures (x + "/" + y) + "/" + z == x + "/" + (y + "/" + z)
  {
  }

  /** No slug of the manifest has a slash, and listed chapters and pages with the same slugs have the
      same title. */
  predicate WellNamed(m: Manifest) {
    && (forall b | b in m.books :: Plain(b.slug))
    && (forall b, c | b in m.books && c in b.chapters :: Plain(c.slug))
    && (forall b, c, p | b in m.books && c in b.chapters && p in c.pages :: Plain(p.slug))
    && (forall b, c, b', c' | b in m.books && c in b.chapters && b' in m.books && c' in b'.chapters ::
          b.slug == b'.slug && c.slug == c'.slug ==> c.title == c'.title)
    && (forall b, c, p, b', c', p' | b in m.books && c in b.chapters && p in c.pages
                                     && b' in m.books && c' in b'.chapters && p' in c'.pages ::
          b.slug == b'.slug && c.slug == c'.slug && p.slug == p'.slug ==> p.title == p'.title)
  }

  /** An answered creation in the log beyond the first n calls. */
  lemma {:induction false} AnsweredAt(log: seq<Call>, n: nat, k: Key) returns (i: nat)
    requires n <= |log| && Answered(log, k) > Answered(log[..n], k)
    ensures n <= i < |log| && IsAnswered(log[i]) && log[i].request.key == k
  {
    assert log[..|log|] == log;
    i := |log| - 1;
    if !(IsAnswered(log[i]) && log[i].request.key == k) {
      assert log[..i][..n] == log[..n];
      i := AnsweredAt(log[..i], n, k);
    }
  }

  /** A key that a completed apply run has covered, and that cannot be adopted, is tracked afterwards
      and was created exactly once in the run if it was not tracked before, never otherwise. */
  lemma CreatedOnce(r: RunRecord, k: Key)
    requires RunOf(r) && k in r.after.file.tracked && (k.ChapterKey? || k.PageKey? || (k.BookKey? && !r.job.force))
    ensures Answered(r.after.log, k) - Answered(r.before.log, k) == 1 - Holds(r.before.file, k)
  {
    hide Covers, Within, Renamed, Filed, Shelved, Named, NoneReused;
  }

  /** Every chapter of the manifest: after a completed apply run it is tracked, under the slugs of its
      book and its own; unless it was tracked before, the run created it exactly once, with its
      title and under its own book. */
  lemma ChapterImported(r: RunRecord, b: Book, c: Chapter) returns (i: nat)
    requires RunOf(r) && r.ok && r.job.apply && WellNamed(r.job.m) && b in r.job.m.books && c in b.chapters
    ensures var k, t := ChapterKey(b.slug + "/" + c.slug), r.after.file.tracked;
            && k in t && BookKey(b.slug) in t
            && Answered(r.after.log, k) - Answered(r.before.log, k) == 1 - Holds(r.before.file, k)
            && (k !in r.before.file.tracked ==>
                  && |r.before.log| <= i < |r.after.log|
                  && r.after.log[i] == Call(Post(k, [t[BookKey(b.slug)]], c.title), Served, Some(t[k])))
  {
    hide Ordered, WellNamed, Answered;
    var k := ChapterKey(b.slug + "/" + c.slug);
    RunCovers(r);
    hide RunOf, Covers;
    Listing(r.after.file, r.job.m, b, c);
    CreatedOnce(r, k);
    i := 0;
    if k !in r.before.file.tracked {
      i := PostOf(r, k);
      ChapterOrder(r.job.m, r.after.file.tracked, r.after.log[i].request, b, c);
    }
  }

  /** And every page, under its own chapter. */
  lemma PageImported(r: RunRecord, b: Book, c: Chapter, p: Page) returns (i: nat)
    requires RunOf(r) && r.ok && r.job.apply && WellNamed(r.job.m)
    requires b in r.job.m.books && c in b.chapters && p in c.pages
    ensures var k, up, t := PageKey(b.slug + "/" + c.slug + "/" + p.slug), ChapterKey(b.slug + "/" + c.slug),
                            r.after.file.tracked;
            && k in t && up in t
            && Answered(r.after.log, k) - Answered(r.before.log, k) == 1 - Holds(r.before.file, k)
            && (k !in r.before.file.tracked ==>
                  && |r.before.log| <= i < |r.after.log|
                  && r.after.log[i] == Call(Post(k, [t[up]], p.title), Served, Some(t[k])))
  {
    hide Ordered, WellNamed, Answered;
    var k := PageKey(b.slug + "/" + c.slug + "/" + p.slug);
    RunCovers(r);
    hide RunOf, Covers;
    Listing(r.after.file, r.job.m, b, c);
    PageListing(r.after.file, r.job.m, b, c, p);
    CreatedOnce(r, k);
    i := 0;
    if k !in r.before.file.tracked {
      i := PostOf(r, k);
      PageOrder(r.job.m, r.after.file.tracked, r.after.log[i].request, b, c, p);
    }
  }

  /** And every book, which only --force-reuse may take from the server instead. */
  lemma BookImported(r: RunRecord, b: Book) returns (i: nat)
    requires RunOf(r) && r.ok && r.job.apply && !r.job.force && b in r.job.m.books
    requires forall b' | b' in r.job.m.books && b'.slug == b.slug :: b'.title == b.title
    ensures var k, t := BookKey(b.slug), r.after.file.tracked;
            && k in t && Answered(r.after.log, k) - Answered(r.before.log, k) == 1 - Holds(r.before.file, k)
            && (k !in r.before.file.tracked ==>
                  && |r.before.log| <= i < |r.after.log|
                  && r.after.log[i] == Call(Post(k, [], b.title), Served, Some(t[k])))
  {
    var k := BookKey(b.slug);
    BookListing(r.after.file, r.job.m, b);
    CreatedOnce(r, k);
    i := 0;
    if k !in r.before.file.tracked {
      i := PostOf(r, k);
    }
  }

  lemma RunCovers(r: RunRecord)
    requires RunOf(r) && r.ok && r.job.apply
    ensures Covers(r.after.file, r.job.m)
  {
  }

  lemma ChapterOrder(m: Manifest, t: map<Key, Id>, r: Request, b: Book, c: Chapter)
    requires WellNamed(m) && r.Post? && Ordered(m, t, r) && b in m.books && c in b.chapters
    requires r.key == ChapterKey(b.slug + "/" + c.slug)
    ensures BookKey(b.slug) in t && r.refs == [t[BookKey(b.slug)]] && r.name == c.title
  {
    var b', c' :| b' in m.books && c' in b'.chapters && OrdersChapter(t, r, b', c');
    PathsDiffer(b.slug, c.slug, "", b'.slug, c'.slug, "");
  }

  lemma PageOrder(m: Manifest, t: map<Key, Id>, r: Request, b: Book, c: Chapter, p: Page)
    requires WellNamed(m) && r.Post? && Ordered(m, t, r) && b in m.books && c in b.chapters && p in c.pages
    requires r.key == PageKey(b.slug + "/" + c.slug + "/" + p.slug)
    ensures var up := ChapterKey(b.slug + "/" + c.slug);
            up in t && r.refs == [t[up]] && r.name == p.title
  {
    var b', c', p' :| b' in m.books && c' in b'.chapters && p' in c'.pages && OrdersPage(t, r, b', c', p');
    SamePage(m, b, c, p, b', c', p');
    hide WellNamed, Ordered;
  }

  lemma SamePage(m: Manifest, b: Book, c: Chapter, p: Page, b': Book, c': Chapter, p': Page)
    requires WellNamed(m) && b in m.books && c in b.chapters && p in c.pages
    requires b' in m.books && c' in b'.chapters && p' in c'.pages
    requires b.slug + "/" + c.slug + "/" + p.slug == b'.slug + "/" + c'.slug + "/" + p'.slug
    ensures b'.slug == b.slug && c'.slug == c.slug && p'.title == p.title
  {
    PathsDiffer(b.slug, c.slug, p.slug, b'.slug, c'.slug, p'.slug);
    hide Plain;
  }

  /** The creation that an untracked key gained in a run goes back to. */
  lemma PostOf(r: RunRecord, k: Key) returns (i: nat)
    requires RunOf(r) && k in r.after.file.tracked && k !in r.before.file.tracked
    requires Answered(r.after.log, k) - Answered(r.before.log, k) == 1
    ensures |r.before.log| <= i < |r.after.log|
    ensures var call := r.after.log[i];
            && call.request.Post? && call.request.key == k && call.fate == Served
            && call.answer == Some(r.after.file.tracked[k])
            && Ordered(r.job.m, r.after.file.tracked, call.request)
  {
    assert r.after.log[..|r.before.log|] == r.before.log;
    i := AnsweredAt(r.after.log, |r.before.log|, k);
    assert Noted(r.after.file.tracked, r.after.log[i]);
    hide Covers, Renamed, Filed, Shelved, Named, NoneReused, Ordered;
  }

  lemma BookListing(f: State, m: Manifest, b: Book)
    requires Covers(f, m) && b in m.books
    ensures BookDone(f, b)
  {
    var i :| 0 <= i < |m.books| && m.books[i] == b;
  }

  lemma Listing(f: State, m: Manifest, b: Book, c: Chapter)
    requires Covers(f, m) && b in m.books && c in b.chapters
    ensures BookKey(b.slug) in f.tracked && ChapterKey(b.slug + "/" + c.slug) in f.tracked && ChapterDone(f, b, c)
  {
    BookListing(f, m, b);
    var i :| 0 <= i < |b.chapters| && b.chapters[i] == c;
  }

  lemma PageListing(f: State, m: Manifest, b: Book, c: Chapter, p: Page)
    requires Covers(f, m) && b in m.books && c in b.chapters && p in c.pages
    ensures PageKey(b.slug + "/" + c.slug + "/" + p.slug) in f.tracked
  {
    Listing(f, m, b, c);
    var i :| 0 <= i < |c.pages| && c.pages[i] == p;
  }

  // ---- The old shelf made again ----

  /** The script started on a world in which nothing fails. */
  method Invoke(job: Job, w: World) returns (ok: bool, after: World)
    ensures RunOf(RunRecord(job, w, after, ok))
    ensures Unhindered(job, w.file, w.store) ==> ok
  {
    var script := new Script(job, _ => Served, _ => true, w);
    ok := script.Run();
    after := World(script.file, script.log, script.store);
  }

  const BOOK := Book("b", "Book", [])
  const FIRST := Job(true, false, Manifest([BOOK], ["A"]))
  const SECOND := Job(true, false, Manifest([BOOK], ["B", "C"]))

  /** A state file in the single-shelf format, and a server that holds that shelf under its name. */
  predicate OldFormat(w: World) {
    && w.file == State(map[BookKey("b") := 1], Some(5))
    && w.store.shelves.Keys == {5} && w.store.shelves[5].name == "A"
  }

  lemma Letters()
    ensures "A" != "B" && "A" != "C" && "B" != "C"
  {
    assert "A"[0] != "B"[0] && "A"[0] != "C"[0] && "B"[0] != "C"[0];
  }

  lemma BeforeFirst(w: World)
    requires OldFormat(w)
    ensures Unhindered(FIRST, w.file, w.store) && Covers(w.file, FIRST.m)
  {
    assert !HasShelf(w.file.tracked);
  }

  lemma AfterFirst(w: World, w1: World)
    requires OldFormat(w) && RunOf(RunRecord(FIRST, w, w1, true))
    ensures OldFormat(w1)
  {
    BeforeFirst(w);
    assert Renamed(FIRST.m, w.store, w1.store);
  }

  lemma BeforeSecond(w: World)
    requires OldFormat(w)
    ensures Unhindered(SECOND, w.file, w.store)
  {
    Letters();
    assert !HasShelf(w.file.tracked);
  }

  lemma SecondFacts(w: World, w2: World)
    requires OldFormat(w) && RunOf(RunRecord(SECOND, w, w2, true))
    ensures var f, m := w2.file, SECOND.m;
            && Keeps(w.file.tracked, f.tracked) && Within(m, w, w2) && Renamed(m, w.store, w2.store)
            && Keeps(Migrated(w.file, m.shelves).tracked, Migrated(f, m.shelves).tracked)
            && ShelvesDone(Migrated(f, m.shelves), m, 2) && Named(Migrated(f, m.shelves), w2.store, m, 2)
  {
    hide Filed, Sourced, Answered;
  }

  /** After the second run the old id is the second manifest's first shelf. */
  lemma SecondFile(w: World, f: State)
    requires OldFormat(w) && Keeps(Migrated(w.file, SECOND.m.shelves).tracked, Migrated(f, SECOND.m.shelves).tracked)
    requires ShelvesDone(Migrated(f, SECOND.m.shelves), SECOND.m, 2)
    ensures HasShelf(f.tracked) && ShelfKey("B") in f.tracked && f.tracked[ShelfKey("B")] == 5
  {
    Letters();
    var m, b, c := SECOND.m, ShelfKey("B"), ShelfKey("C");
    assert !HasShelf(w.file.tracked);
    assert m.shelves[0] == "B" && m.shelves[1] == "C";
    assert b in Migrated(w.file, m.shelves).tracked && Migrated(w.file, m.shelves).tracked[b] == 5;
    assert c in Migrated(f, m.shelves).tracked;
    assert c in f.tracked;
  }

  /** And the server knows the old shelf by a name of the second manifest. */
  lemma SecondNames(w: World, store: Store, f: State)
    requires OldFormat(w) && Renamed(SECOND.m, w.store, store)
    requires HasShelf(f.tracked) && ShelfKey("B") in f.tracked && f.tracked[ShelfKey("B")] == 5
    requires Named(Migrated(f, SECOND.m.shelves), store, SECOND.m, 2)
    ensures "A" !in Names(store)
  {
    Letters();
    assert SECOND.m.shelves[0] == "B";
    assert store.shelves[5].name in SECOND.m.shelves;
  }

  lemma FirstAgain(f: State, store: Store)
    requires HasShelf(f.tracked) && ShelfKey("A") !in f.tracked && BookKey("b") in f.tracked && "A" !in Names(store)
    ensures Unhindered(FIRST, f, store) && !Covers(f, FIRST.m)
  {
    hide Names;
    assert FIRST.m.shelves[0] == "A" && Migrated(f, FIRST.m.shelves) == f;
  }

  /** After the second run the file no longer knows the first manifest's shelf, nor does the server. */
  lemma AfterSecond(w: World, w2: World)
    requires OldFormat(w) && RunOf(RunRecord(SECOND, w, w2, true))
    ensures Unhindered(FIRST, w2.file, w2.store) && !Covers(w2.file, FIRST.m)
  {
    Letters();
    SecondFacts(w, w2);
    SecondFile(w, w2.file);
    SecondNames(w, w2.store, w2.file);
    hide RunOf, Renamed, Names, Named, Migrated, Unhindered, Covers;
    assert !Listed(SECOND.m, ShelfKey("A"));
    assert BookKey("b") in w.file.tracked;
    FirstAgain(w2.file, w2.store);
  }

  /** Three apply runs of the script in which nothing fails, from a file in the single-shelf format:
      the first takes the old id for shelf A; the second takes it for shelf B, renames it,
      creates C and saves both; the third creates A again. */
  method LegacyShelfIsCreatedAgain(w: World) returns (rs: seq<RunRecord>)
    requires OldFormat(w)
    ensures |rs| == 3 && Chain(rs) && rs[0].before == w && rs[1].before == rs[0].after && rs[2].before == rs[1].after
    ensures rs[0].job == rs[2].job == FIRST && rs[1].job == SECOND && rs[0].ok && rs[1].ok && rs[2].ok
    ensures !NoCreation(rs[2].before, rs[2].after)
  {
    hide *;
    var ok, w1, w2, w3;
    BeforeFirst(w);
    ok, w1 := Invoke(FIRST, w);
    var r0 := RunRecord(FIRST, w, w1, ok);
    AfterFirst(w, w1);
    BeforeSecond(w1);
    ok, w2 := Invoke(SECOND, w1);
    var r1 := RunRecord(SECOND, w1, w2, ok);
    AfterSecond(w1, w2);
    ok, w3 := Invoke(FIRST, w2);
    var r2 := RunRecord(FIRST, w2, w3, ok);
    Switches();
    CreatesNothingIffCovered(r2);
    rs := [r0, r1, r2];
    ThreeRuns(rs);
  }

  lemma Switches()
    ensures FIRST.apply && !FIRST.force
  {
  }

  lemma ThreeRuns(rs: seq<RunRecord>)
    requires |rs| == 3 && RunOf(rs[0]) && RunOf(rs[1]) && RunOf(rs[2])
    requires rs[1].before == rs[0].after && rs[2].before == rs[1].after
    ensures Chain(rs)
  {
    hide RunOf;
  }
}
