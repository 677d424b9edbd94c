/** Local trust reports: write a temporary file, rename it, serve it, expire it
    (crates/proxy/src/trust_reports.rs). */
module ReportStore {
  import opened Text

  // ---- Names ----

  predicate IsLowerHex(c: char) {
    '0' <= c <= '9' || 'a' <= c <= 'f'
  }

  /** A version 4 UUID in its hyphenated lower-case form; only such ids are looked up. */
  predicate ValidReportId(id: string) {
    |id| == 36 && id[14] == '4'
    && forall i :: 0 <= i < 36 ==> if i == 8 || i == 13 || i == 18 || i == 23 then id[i] == '-' else IsLowerHex(id[i])
  }

  ghost predicate AllHex(s: string, n: nat) {
    |s| == n && forall i :: 0 <= i < n ==> '0' <= s[i] <= '9' || 'a' <= s[i] <= 'f'
  }

  /** Groups of eight, four, four, four and twelve small hexadecimal digits, the third starting with 4. */
  ghost predicate IsUuid4(id: string, a: string, b: string, c: string, d: string, e: string) {
    && AllHex(a, 8) && AllHex(b, 4) && AllHex(c, 3) && AllHex(d, 4) && AllHex(e, 12)
    && id == a + "-" + b + "-4" + c + "-" + d + "-" + e
  }

  lemma ReportIdMeaning(id: string)
    ensures ValidReportId(id) <==> exists a, b, c, d, e :: IsUuid4(id, a, b, c, d, e)
  {
    if ValidReportId(id) {
      var a, b, c, d, e := id[..8], id[9..13], id[15..18], id[19..23], id[24..];
      assert id == a + "-" + b + "-4" + c + "-" + d + "-" + e;
      assert IsUuid4(id, a, b, c, d, e);
    }
    if a, b, c, d, e :| IsUuid4(id, a, b, c, d, e) {
      UuidPlaces(id, a, b, c, d, e);
    }
  }

  lemma UuidPlaces(id: string, a: string, b: string, c: string, d: string, e: string)
    requires IsUuid4(id, a, b, c, d, e)
    ensures ValidReportId(id)
  {
    assert |id| == 36 && id[8] == '-' && id[13] == '-' && id[14] == '4' && id[18] == '-' && id[23] == '-';
    assert id[..8] == a && id[9..13] == b && id[15..18] == c && id[19..23] == d && id[24..] == e;
    forall i | 0 <= i < 36 && i != 8 && i != 13 && i != 14 && i != 18 && i != 23
      ensures IsLowerHex(id[i])
    {
      assert i < 8 ==> id[i] == id[..8][i];
      assert 8 < i < 13 ==> id[i] == id[9..13][i - 9];
      assert 14 < i < 18 ==> id[i] == id[15..18][i - 15];
      assert 18 < i < 23 ==> id[i] == id[19..23][i - 19];
      assert 23 < i ==> id[i] == id[24..][i - 24];
    }
  }

  /** The two kinds of file a report has. */
  datatype Name = Final(id: string) | Temporary(id: string)

  function FileName(n: Name): string {
    match n
    case Final(id) => id + ".html"
    case Temporary(id) => "." + id + ".html.tmp"
  }

  /** Distinct files have distinct names; in particular no temporary name is a readable one. This is
      what lets the directory be a map from `Name`. */
  lemma FileNamesNeverCollide(a: Name, b: Name)
    requires ValidReportId(a.id) && ValidReportId(b.id) && FileName(a) == FileName(b)
    ensures a == b
  {
    var name := FileName(a);
    assert a.Final? ==> name[0] == a.id[0] && IsLowerHex(a.id[0]) && name[..36] == a.id;
    assert b.Final? ==> name[0] == b.id[0] && IsLowerHex(b.id[0]) && name[..36] == b.id;
    assert a.Temporary? ==> name[0] == '.' && name[1..37] == a.id;
    assert b.Temporary? ==> name[0] == '.' && name[1..37] == b.id;
  }

  // ---- The directory and the operations on it ----

  datatype File = File(content: string, modified: int)

  type TaskId = nat

  /** A create between two awaits. `written` characters of the page are in the temporary file. */
  datatype Creating =
    | Opening(id: string)
    | Writing(id: string, written: nat)
    | Renaming(id: string)
    | Failing(id: string)

  /** A read after its metadata check: it goes on to read the page, or to remove an expired file. */
  datatype Reading = Checked(id: string, modified: int, at: int) | Removing(id: string)

  datatype Answer = Answer(id: string, page: Option<string>, modified: int, checkedAt: int)

  /** `pages` maps every report id ever used to its rendered page; `published` and `failed` are the
      ids whose create has succeeded or failed. */
  datatype State = State(files: map<Name, File>, now: int, creates: map<TaskId, Creating>,
                         readers: map<TaskId, Reading>, pages: map<string, string>,
                         published: set<string>, failed: set<string>, answers: seq<Answer>)

  datatype Label =
    | Pass(time: nat)
    | Create(t: TaskId, id: string, page: string)
    | Open(t: TaskId)
    | Write(t: TaskId, count: nat)
    | Sync(t: TaskId)
    | Rename(t: TaskId)
    | StepFails(t: TaskId)
    | RemoveTemporary(t: TaskId, removed: bool)
    | ReadCheck(t: TaskId, id: string)
    | ReadContents(t: TaskId)
    | ReadRemoves(t: TaskId, removed: bool)
    | CleanUp(name: Name)

  predicate Expired(modified: int, now: int, retention: nat) {
    now >= modified && now - modified >= retention
  }

  predicate Enabled(s: State, retention: nat, l: Label) {
    match l
    case Pass(_) => true
    case Create(t, id, _) => t !in s.creates && ValidReportId(id) && id !in s.pages
    case Open(t) => t in s.creates && s.creates[t].Opening? && Temporary(s.creates[t].id) !in s.files
    case Write(t, count) => t in s.creates && s.creates[t].Writing? && s.creates[t].id in s.pages
                            && s.creates[t].written + count <= |s.pages[s.creates[t].id]|
    case Sync(t) => t in s.creates && s.creates[t].Writing? && s.creates[t].id in s.pages
                    && s.creates[t].written == |s.pages[s.creates[t].id]|
    case Rename(t) => t in s.creates && s.creates[t].Renaming? && Temporary(s.creates[t].id) in s.files
    case StepFails(t) => t in s.creates && !s.creates[t].Failing?
    case RemoveTemporary(t, _) => t in s.creates && s.creates[t].Failing?
    case ReadCheck(t, _) => t !in s.readers
    case ReadContents(t) => t in s.readers && s.readers[t].Checked?
    case ReadRemoves(t, _) => t in s.readers && s.readers[t].Removing?
    // The file may have been written anew since the clean-up found it expired.
    case CleanUp(name) => name in s.files
  }

  function Answering(s: State, id: string, page: Option<string>, modified: int, at: int): State {
    s.(answers := s.answers + [Answer(id, page, modified, at)])
  }

  function Step(s: State, retention: nat, l: Label): State
    requires Enabled(s, retention, l)
  {
    match l
    case Pass(time) => s.(now := s.now + time)
    case Create(t, id, page) => s.(pages := s.pages[id := page], creates := s.creates[t := Opening(id)])
    case Open(t) =>
      s.(files := s.files[Temporary(s.creates[t].id) := File("", s.now)],
         creates := s.creates[t := Writing(s.creates[t].id, 0)])
    case Write(t, count) =>
      var id, n := s.creates[t].id, s.creates[t].written + count;
      var begun := s.(creates := s.creates[t := Writing(id, n)]);
      // A file unlinked by a clean-up meanwhile is written but no longer has a name.
      if Temporary(id) !in s.files then begun
      else begun.(files := s.files[Temporary(id) := File(s.pages[id][..n], s.now)])
    case Sync(t) => s.(creates := s.creates[t := Renaming(s.creates[t].id)])
    case Rename(t) =>
      var id := s.creates[t].id;
      s.(files := (s.files - {Temporary(id)})[Final(id) := s.files[Temporary(id)]],
         creates := s.creates - {t}, published := s.published + {id})
    case StepFails(t) => s.(creates := s.creates[t := Failing(s.creates[t].id)])
    case RemoveTemporary(t, removed) =>
      var id := s.creates[t].id;
      s.(files := if removed then s.files - {Temporary(id)} else s.files, creates := s.creates - {t},
         failed := s.failed + {id})
    case ReadCheck(t, id) =>
      if !ValidReportId(id) || Final(id) !in s.files then Answering(s, id, None, 0, s.now)
      else if Expired(s.files[Final(id)].modified, s.now, retention) then
        s.(readers := s.readers[t := Removing(id)])
      else s.(readers := s.readers[t := Checked(id, s.files[Final(id)].modified, s.now)])
    case ReadContents(t) =>
      var r := s.readers[t];
      var page := if Final(r.id) in s.files then Some(s.files[Final(r.id)].content) else None;
      Answering(s.(readers := s.readers - {t}), r.id, page, r.modified, r.at)
    case ReadRemoves(t, removed) =>
      var id := s.readers[t].id;
      var gone := s.(readers := s.readers - {t}, files := if removed then s.files - {Final(id)} else s.files);
      Answering(gone, id, None, 0, s.now)
    case CleanUp(name) => s.(files := s.files - {name})
  }

  /** The store opens on a directory whose readable files are published pages; temporaries may be left over. */
  ghost predicate Initial(s: State) {
    && s.creates == map[] && s.readers == map[] && s.answers == [] && s.failed == {}
    && s.published == s.pages.Keys
    && (forall id :: id in s.pages ==> ValidReportId(id))
    && (forall id :: Final(id) in s.files ==> id in s.pages && s.files[Final(id)].content == s.pages[id])
  }

  ghost predicate IsRun(retention: nat, states: seq<State>, labels: seq<Label>) {
    && |states| == |labels| + 1 && Initial(states[0])
    && forall i :: 0 <= i < |labels| ==>
         Enabled(states[i], retention, labels[i]) && states[i + 1] == Step(states[i], retention, labels[i])
  }

  // ---- What every step keeps ----

  /** A readable name holds the complete page of a published report. */
  ghost predicate FilesFaithful(files: map<Name, File>, pages: map<string, string>, published: set<string>) {
    forall id :: Final(id) in files ==> id in published && id in pages && files[Final(id)].content == pages[id]
  }

  /** A create in progress owns its id. */
  ghost predicate CreatesFaithful(creates: map<TaskId, Creating>, pages: map<string, string>, done: set<string>) {
    && (forall t :: t in creates ==> creates[t].id in pages && creates[t].id !in done)
    && (forall t, u :: t in creates && u in creates && t != u ==> creates[t].id != creates[u].id)
  }

  /** A temporary name holds the part written so far. */
  ghost predicate TemporariesFaithful(files: map<Name, File>, creates: map<TaskId, Creating>,
                                      pages: map<string, string>) {
    forall t :: t in creates && Temporary(creates[t].id) in files && creates[t].id in pages ==>
      PartOf(creates[t], files[Temporary(creates[t].id)].content, pages[creates[t].id])
  }

  predicate PartOf(c: Creating, content: string, page: string) {
    && (c.Writing? ==> c.written <= |page| && content == page[..c.written])
    && (c.Renaming? ==> content == page)
  }

  ghost predicate Settled(s: State) {
    && s.published !! s.failed
    && s.published <= s.pages.Keys && s.failed <= s.pages.Keys
  }

  predicate ReaderOk(reader: Reading, retention: nat) {
    ValidReportId(reader.id) && (reader.Checked? ==> !Expired(reader.modified, reader.at, retention))
  }

  ghost predicate ReadersOk(readers: map<TaskId, Reading>, retention: nat) {
    forall t :: t in readers ==> ReaderOk(readers[t], retention)
  }

  /** The whole page of the report created under that id, unexpired at the check. */
  predicate Served(pages: map<string, string>, published: set<string>, retention: nat, a: Answer) {
    && a.page.Some? && ValidReportId(a.id)
    && a.id in published && a.id in pages && a.page.value == pages[a.id]
    && !Expired(a.modified, a.checkedAt, retention)
  }

  ghost predicate AnswersFaithful(answers: seq<Answer>, pages: map<string, string>, published: set<string>,
                                  retention: nat) {
    forall a :: a in answers && a.page.Some? ==> Served(pages, published, retention, a)
  }

  ghost predicate Invariant(s: State, retention: nat) {
    && FilesFaithful(s.files, s.pages, s.published)
    && CreatesFaithful(s.creates, s.pages, s.published + s.failed)
    && TemporariesFaithful(s.files, s.creates, s.pages)
    && Settled(s) && ReadersOk(s.readers, retention)
    && AnswersFaithful(s.answers, s.pages, s.published, retention)
  }

  lemma FilesStep(s: State, retention: nat, l: Label)
    requires Invariant(s, retention) && Enabled(s, retention, l)
    ensures FilesFaithful(Step(s, retention, l).files, Step(s, retention, l).pages, Step(s, retention, l).published)
  {
    if l.Rename? {
      assert PartOf(s.creates[l.t], s.files[Temporary(s.creates[l.t].id)].content, s.pages[s.creates[l.t].id]);
    }
  }

  lemma OwnedBegin(creates: map<TaskId, Creating>, pages: map<string, string>, done: set<string>, t: TaskId,
                   id: string, page: string)
    requires CreatesFaithful(creates, pages, done) && id !in pages && done <= pages.Keys
    ensures CreatesFaithful(creates[t := Opening(id)], pages[id := page], done)
  {
  }

  lemma OwnedAdvance(creates: map<TaskId, Creating>, pages: map<string, string>, done: set<string>, t: TaskId,
                     c: Creating)
    requires CreatesFaithful(creates, pages, done) && t in creates && c.id == creates[t].id
    ensures CreatesFaithful(creates[t := c], pages, done)
  {
  }

  lemma OwnedEnd(creates: map<TaskId, Creating>, pages: map<string, string>, done: set<string>, t: TaskId)
    requires CreatesFaithful(creates, pages, done) && t in creates
    ensures CreatesFaithful(creates - {t}, pages, done + {creates[t].id})
  {
  }

  lemma CreatesStep(s: State, retention: nat, l: Label)
    requires Invariant(s, retention) && Enabled(s, retention, l)
    ensures var s' := Step(s, retention, l); CreatesFaithful(s'.creates, s'.pages, s'.published + s'.failed)
  {
    var s', done := Step(s, retention, l), s.published + s.failed;
    if l.Create? {
      OwnedBegin(s.creates, s.pages, done, l.t, l.id, l.page);
    } else if l.Open? || l.Write? || l.Sync? || l.StepFails? {
      OwnedAdvance(s.creates, s.pages, done, l.t, s'.creates[l.t]);
    } else if l.Rename? || l.RemoveTemporary? {
      OwnedEnd(s.creates, s.pages, done, l.t);
      assert s'.published + s'.failed == done + {s.creates[l.t].id};
    }
  }

  lemma TemporariesStep(s: State, retention: nat, l: Label)
    requires Invariant(s, retention) && Enabled(s, retention, l)
    ensures var s' := Step(s, retention, l); TemporariesFaithful(s'.files, s'.creates, s'.pages)
  {
  }

  lemma ReadersStep(s: State, retention: nat, l: Label)
    requires Invariant(s, retention) && Enabled(s, retention, l)
    ensures ReadersOk(Step(s, retention, l).readers, retention)
  {
  }

  /** Pages are never changed and ids never withdrawn, so an answer once faithful stays faithful. */
  lemma AnswersKept(answers: seq<Answer>, pages: map<string, string>, published: set<string>,
                    pages': map<string, string>, published': set<string>, retention: nat)
    requires AnswersFaithful(answers, pages, published, retention) && published <= published'
    requires forall id :: id in pages ==> id in pages' && pages'[id] == pages[id]
    ensures AnswersFaithful(answers, pages', published', retention)
  {
    forall a | a in answers && a.page.Some?
      ensures Served(pages', published', retention, a)
    {
      assert Served(pages, published, retention, a);
    }
  }

  lemma AnswersAdd(answers: seq<Answer>, a: Answer, pages: map<string, string>, published: set<string>, retention: nat)
    requires AnswersFaithful(answers, pages, published, retention)
    requires a.page.Some? ==> Served(pages, published, retention, a)
    ensures AnswersFaithful(answers + [a], pages, published, retention)
  {
  }

  lemma AnswersStep(s: State, retention: nat, l: Label)
    requires Invariant(s, retention) && Enabled(s, retention, l)
    ensures var s' := Step(s, retention, l); AnswersFaithful(s'.answers, s'.pages, s'.published, retention)
  {
    var s' := Step(s, retention, l);
    AnswersKept(s.answers, s.pages, s.published, s'.pages, s'.published, retention);
    if s'.answers != s.answers {
      var a := s'.answers[|s.answers|];
      AnswersAdd(s.answers, a, s'.pages, s'.published, retention);
    }
  }

  lemma SettledStep(s: State, retention: nat, l: Label)
    requires Invariant(s, retention) && Enabled(s, retention, l)
    ensures Settled(Step(s, retention, l))
  {
  }

  lemma InitialInvariant(s: State, retention: nat)
    requires Initial(s)
    ensures Invariant(s, retention)
  {
  }

  lemma {:induction false} StoreInvariant(retention: nat, states: seq<State>, labels: seq<Label>, i: nat)
    requires IsRun(retention, states, labels) && i < |states|
    ensures Invariant(states[i], retention)
  {
    if i == 0 {
      InitialInvariant(states[0], retention);
    } else {
      StoreInvariant(retention, states, labels, i - 1);
      assert states[i - 1 + 1] == Step(states[i - 1], retention, labels[i - 1]);
      FilesStep(states[i - 1], retention, labels[i - 1]);
      CreatesStep(states[i - 1], retention, labels[i - 1]);
      TemporariesStep(states[i - 1], retention, labels[i - 1]);
      ReadersStep(states[i - 1], retention, labels[i - 1]);
      AnswersStep(states[i - 1], retention, labels[i - 1]);
      SettledStep(states[i - 1], retention, labels[i - 1]);
    }
  }

  /** Over every interleaving of creates failing at any file step, reads and clean-ups: a read
      answers nothing, or the complete page of the report published under that id, unexpired when it
      was checked; and an id whose create failed is never answered with a page. */
  lemma ReadsAreFaithful(retention: nat, states: seq<State>, labels: seq<Label>, i: nat, k: nat)
    requires IsRun(retention, states, labels) && i < |states| && k < |states[i].answers|
    ensures states[i].answers[k].page.Some? ==>
              Served(states[i].pages, states[i].published, retention, states[i].answers[k])
    ensures states[i].answers[k].id in states[i].failed ==> states[i].answers[k].page == None
  {
    StoreInvariant(retention, states, labels, i);
  }

  // ---- What is answered, and what is published ----

  /** The id is a UUID, its page is there, and it is younger than the retention. */
  predicate Readable(s: State, retention: nat, id: string) {
    && ValidReportId(id) && Final(id) in s.files
    && (s.now < s.files[Final(id)].modified || s.now - s.files[Final(id)].modified < retention)
  }

  /** A read is answered nothing at once exactly if the id is no report id or the page is not there; an
      expired page is removed and answered nothing; any other page is read. */
  lemma ReadCheckExactly(s: State, retention: nat, t: TaskId, id: string)
    requires Enabled(s, retention, ReadCheck(t, id))
    ensures var s' := Step(s, retention, ReadCheck(t, id));
            && (t in s'.readers && s'.readers[t].Checked? <==> Readable(s, retention, id))
            && (t in s'.readers && s'.readers[t].Removing? <==>
                  ValidReportId(id) && Final(id) in s.files && !Readable(s, retention, id))
            && (t in s'.readers ==> s'.readers[t].id == id && s'.answers == s.answers)
            && (t !in s'.readers ==> |s'.answers| == |s.answers| + 1 && s'.answers[|s.answers|].page == None)
            && s'.files == s.files
  {
  }

  /** What a checked read then answers: the page if it is still there, nothing if it was removed since. */
  lemma ReadContentsExactly(s: State, retention: nat, t: TaskId)
    requires Invariant(s, retention) && Enabled(s, retention, ReadContents(t))
    ensures var s', id := Step(s, retention, ReadContents(t)), s.readers[t].id;
            && s'.answers == s.answers + [s'.answers[|s.answers|]] && s'.answers[|s.answers|].id == id
            && (Final(id) in s.files ==> id in s.pages && s'.answers[|s.answers|].page == Some(s.pages[id]))
            && (Final(id) !in s.files ==> s'.answers[|s.answers|].page == None)
  {
  }

  /** A create that is opened, written to the end, synced and renamed publishes its page under its id. */
  lemma CreatePublishes(s: State, retention: nat, t: TaskId, id: string, page: string)
    requires Invariant(s, retention) && t !in s.creates && ValidReportId(id) && id !in s.pages
    requires Temporary(id) !in s.files
    ensures && Enabled(s, retention, Create(t, id, page))
            && var s1 := Step(s, retention, Create(t, id, page));
            && Enabled(s1, retention, Open(t))
            && var s2 := Step(s1, retention, Open(t));
            && Enabled(s2, retention, Write(t, |page|))
            && var s3 := Step(s2, retention, Write(t, |page|));
            && Enabled(s3, retention, Sync(t))
            && var s4 := Step(s3, retention, Sync(t));
            && Enabled(s4, retention, Rename(t))
            && var s5 := Step(s4, retention, Rename(t));
            && Readable(s5, if retention == 0 then 1 else retention, id) && s5.files[Final(id)].content == page
            && id in s5.published && Temporary(id) !in s5.files
  {
    assert page[..|page|] == page;
  }

  /** A failed create leaves no readable page behind, then or later. */
  lemma FailedCreateLeavesNothing(retention: nat, states: seq<State>, labels: seq<Label>, i: nat, id: string)
    requires IsRun(retention, states, labels) && i < |states| && id in states[i].failed
    ensures Final(id) !in states[i].files && id !in states[i].published
  {
    StoreInvariant(retention, states, labels, i);
  }
}
