/** src/services/storageService.ts: the browser's `localStorage` as a map from key to
    stored value. JSON.stringify and JSON.parse are the identity on `Value`, so a
    stored value is the object that was saved. Every getter falls back to a default
    when its key is absent. */
module Storage {
  import opened Common
  import opened Calendar
  import opened Model

  /** A profile as it may sit in storage: `targetYears` can be missing. */
  datatype StoredProfile = StoredProfile(name: string, examDate: string, targetYears: Option<seq<int>>, isSetupComplete: bool)

  /** A resource as it may sit in storage: `type` can be missing. */
  datatype StoredInfo = StoredInfo(id: string, title: string, date: string, dataUrl: string, kind: Option<InfoKind>)

  /** The object kept under the backup key, or read from an imported file; any field
      can be missing. */
  datatype Backup = Backup(
    profile: Option<StoredProfile>, mocks: Option<seq<MockTest>>, errors: Option<seq<ErrorEntry>>,
    daily: Option<seq<DailyLog>>, infoImages: Option<seq<StoredInfo>>, syllabus: Option<Status>,
    schedule: Option<seq<Phase>>, knowledge: Option<seq<KnowledgeItem>>, calcStats: Option<DrillStats>,
    cheatSheet: Option<CheatSheet>, flashcards: Option<seq<Flashcard>>, timestamp: Option<string>)

  datatype Value =
    | ProfileValue(profile: StoredProfile)
    | MocksValue(mocks: seq<MockTest>)
    | ErrorsValue(errors: seq<ErrorEntry>)
    | DailyValue(logs: seq<DailyLog>)
    | InfoValue(items: seq<StoredInfo>)
    | SyllabusValue(status: Status)
    | ScheduleValue(phases: seq<Phase>)
    | KnowledgeValue(knowledge: seq<KnowledgeItem>)
    | CalcStatsValue(stats: DrillStats)
    | CheatSheetValue(sheet: CheatSheet)
    | FlashcardsValue(cards: seq<Flashcard>)
    | BackupValue(backup: Backup)
    | OtherValue(text: string)

  /** `localStorage`, keyed by the application's keys (see `KeyName` for the strings). */
  type LocalStorage = map<StorageKey, Value>

  /** What `importDataFromFile` receives: text JSON.parse rejects, or a parsed object. */
  datatype ImportPayload = Malformed | Parsed(backup: Backup)

  /** The value under each key has that key's type. */
  predicate WellTyped(k: StorageKey, v: Value) {
    match k
    case ProfileKey => v.ProfileValue?
    case MocksKey => v.MocksValue?
    case ErrorsKey => v.ErrorsValue?
    case DailyKey => v.DailyValue?
    case InfoKey => v.InfoValue?
    case SyllabusKey => v.SyllabusValue?
    case ScheduleKey => v.ScheduleValue?
    case KnowledgeKey => v.KnowledgeValue?
    case CalcStatsKey => v.CalcStatsValue?
    case CheatSheetKey => v.CheatSheetValue?
    case FlashcardsKey => v.FlashcardsValue?
    case GauntletKey => v.OtherValue?
    case BackupKey => v.BackupValue?
  }

  predicate WellTypedStorage(s: LocalStorage) {
    forall k :: k in s ==> WellTyped(k, s[k])
  }

  // ---------------------------------------------------------------------------
  // Getters with defaults
  // ---------------------------------------------------------------------------

  const DefaultProfile := UserProfile("Candidate", DefaultExamDate, [2027], false)

  function Stored(p: UserProfile): StoredProfile {
    StoredProfile(p.name, p.examDate, Some(p.targetYears), p.isSetupComplete)
  }

  /** `getUserProfile`: the default when nothing is stored; a stored profile without
      `targetYears` gets [2027]. */
  function GetUserProfile(s: LocalStorage): (p: UserProfile)
    ensures ProfileKey !in s ==> p == DefaultProfile && !p.isSetupComplete
    ensures p.targetYears == [2027] || (ProfileKey in s && s[ProfileKey].ProfileValue? && s[ProfileKey].profile.targetYears == Some(p.targetYears))
  {
    if ProfileKey in s && s[ProfileKey].ProfileValue? then
      var sp := s[ProfileKey].profile;
      UserProfile(sp.name, sp.examDate, if sp.targetYears.Some? then sp.targetYears.value else [2027], sp.isSetupComplete)
    else DefaultProfile
  }

  function GetMocks(s: LocalStorage): seq<MockTest> {
    if MocksKey in s && s[MocksKey].MocksValue? then s[MocksKey].mocks else []
  }

  function GetErrors(s: LocalStorage): seq<ErrorEntry> {
    if ErrorsKey in s && s[ErrorsKey].ErrorsValue? then s[ErrorsKey].errors else []
  }

  function GetDailyLogs(s: LocalStorage): seq<DailyLog> {
    if DailyKey in s && s[DailyKey].DailyValue? then s[DailyKey].logs else []
  }

  /** A stored resource with a missing type reads as an image. */
  function Normalised(i: StoredInfo): InfoItem {
    InfoItem(i.id, i.title, i.date, i.dataUrl, if i.kind.Some? then i.kind.value else Image)
  }

  function StoredItem(i: InfoItem): StoredInfo {
    StoredInfo(i.id, i.title, i.date, i.dataUrl, Some(i.kind))
  }

  function NormaliseAll(items: seq<StoredInfo>): (r: seq<InfoItem>)
    ensures |r| == |items|
    ensures forall i :: 0 <= i < |items| ==> r[i] == Normalised(items[i])
  {
    if items == [] then [] else [Normalised(items[0])] + NormaliseAll(items[1..])
  }

  function StoreAll(items: seq<InfoItem>): (r: seq<StoredInfo>)
    ensures |r| == |items|
    ensures forall i :: 0 <= i < |items| ==> r[i] == StoredItem(items[i])
  {
    if items == [] then [] else [StoredItem(items[0])] + StoreAll(items[1..])
  }

  /** `getInfoItems`: every item, in stored order, with a missing type read as 'image'. */
  function GetInfoItems(s: LocalStorage): (r: seq<InfoItem>)
    ensures InfoKey in s && s[InfoKey].InfoValue? ==>
      |r| == |s[InfoKey].items| &&
      forall i :: 0 <= i < |r| ==>
        r[i].id == s[InfoKey].items[i].id && (r[i].kind == Image <==> s[InfoKey].items[i].kind != Some(Pdf))
    ensures InfoKey in s && s[InfoKey].InfoValue? ==>
      forall i :: 0 <= i < |r| ==>
        r[i].title == s[InfoKey].items[i].title && r[i].date == s[InfoKey].items[i].date &&
        r[i].dataUrl == s[InfoKey].items[i].dataUrl
    ensures !(InfoKey in s && s[InfoKey].InfoValue?) ==> r == []
  {
    if InfoKey in s && s[InfoKey].InfoValue? then
      var items := s[InfoKey].items;
      var r := NormaliseAll(items);
      assert forall i :: 0 <= i < |r| ==> (r[i].kind == Image <==> items[i].kind != Some(Pdf)) by {
        forall i | 0 <= i < |r| ensures r[i].kind == Image <==> items[i].kind != Some(Pdf) {
          assert r[i] == Normalised(items[i]);
        }
      }
      r
    else []
  }

  function GetSyllabusStatus(s: LocalStorage): Status {
    if SyllabusKey in s && s[SyllabusKey].SyllabusValue? then s[SyllabusKey].status else map[]
  }

  /** `getSchedule`: the stored list, even an empty one; the template when nothing is stored. */
  function GetSchedule(s: LocalStorage): seq<Phase> {
    if ScheduleKey in s && s[ScheduleKey].ScheduleValue? then s[ScheduleKey].phases else DefaultSchedule
  }

  /** `getKnowledgeBase`: the built-in base when nothing, or an empty list, is stored. */
  function GetKnowledgeBase(s: LocalStorage): (r: seq<KnowledgeItem>)
    ensures r != []
  {
    if KnowledgeKey in s && s[KnowledgeKey].KnowledgeValue? && s[KnowledgeKey].knowledge != [] then
      s[KnowledgeKey].knowledge
    else InitialKnowledgeBase()
  }

  function GetCalcStats(s: LocalStorage): DrillStats {
    if CalcStatsKey in s && s[CalcStatsKey].CalcStatsValue? then s[CalcStatsKey].stats else DefaultCalcStats
  }

  /** `getCheatSheet`; the default's `lastModified` is the ISO time of the call. */
  function GetCheatSheet(s: LocalStorage, nowIso: string): CheatSheet {
    if CheatSheetKey in s && s[CheatSheetKey].CheatSheetValue? then s[CheatSheetKey].sheet
    else CheatSheet(DefaultCheatSheetContent, nowIso)
  }

  /** `getFlashcards`; the built-in deck's date is the ISO time the module was loaded. */
  function GetFlashcards(s: LocalStorage, loadedAt: string): seq<Flashcard> {
    if FlashcardsKey in s && s[FlashcardsKey].FlashcardsValue? then s[FlashcardsKey].cards
    else InitialFlashcards(loadedAt)
  }

  /** The object `createBackup` stores: every getter's value and the time stamp. */
  function Snapshot(s: LocalStorage, loadedAt: string, stamp: string): (b: Backup)
    ensures b.timestamp == Some(stamp)
  {
    Backup(Some(Stored(GetUserProfile(s))), Some(GetMocks(s)), Some(GetErrors(s)), Some(GetDailyLogs(s)),
           Some(StoreAll(GetInfoItems(s))), Some(GetSyllabusStatus(s)), Some(GetSchedule(s)),
           Some(GetKnowledgeBase(s)), Some(GetCalcStats(s)), Some(GetCheatSheet(s, stamp)),
           Some(GetFlashcards(s, loadedAt)), Some(stamp))
  }

  /** The storage after `createBackup`. */
  function WithBackup(s: LocalStorage, loadedAt: string, stamp: string): LocalStorage {
    s[BackupKey := BackupValue(Snapshot(s, loadedAt, stamp))]
  }

  // ---------------------------------------------------------------------------
  // List updates
  // ---------------------------------------------------------------------------

  predicate HasId(items: seq<KnowledgeItem>, id: string) {
    exists i :: 0 <= i < |items| && items[i].id == id
  }

  /** `findIndex(i => i.id === id)`: the first index with that id. */
  function IndexOfId(items: seq<KnowledgeItem>, id: string): (r: int)
    ensures -1 <= r < |items|
    ensures r >= 0 ==> items[r].id == id && forall j :: 0 <= j < r ==> items[j].id != id
    ensures r == -1 <==> !HasId(items, id)
  {
    if items == [] then -1
    else if items[0].id == id then 0
    else
      var r := IndexOfId(items[1..], id);
      assert HasId(items, id) ==> HasId(items[1..], id) by {
        if HasId(items, id) {
          var i :| 0 <= i < |items| && items[i].id == id;
          assert items[1..][i - 1].id == id;
        }
      }
      if r == -1 then -1 else r + 1
  }

  /** The knowledge-base upsert: an item whose id is present replaces the first item
      with that id, in place; otherwise it is appended. */
  function Upsert(items: seq<KnowledgeItem>, item: KnowledgeItem): (r: seq<KnowledgeItem>)
    ensures HasId(items, item.id) ==>
      |r| == |items| && r[IndexOfId(items, item.id)] == item &&
      forall j :: 0 <= j < |items| && j != IndexOfId(items, item.id) ==> r[j] == items[j]
    ensures !HasId(items, item.id) ==> r == items + [item]
  {
    var i := IndexOfId(items, item.id);
    if i >= 0 then items[i := item] else items + [item]
  }

  /** A stored list that is not empty is what `getKnowledgeBase` returns. */
  lemma KnowledgeReadBack(s: LocalStorage, items: seq<KnowledgeItem>)
    requires KnowledgeKey in s && s[KnowledgeKey] == KnowledgeValue(items) && items != []
    ensures GetKnowledgeBase(s) == items
  {
  }

  lemma UpsertGrows(items: seq<KnowledgeItem>, item: KnowledgeItem)
    ensures |Upsert(items, item)| >= |items|
  {
  }

  predicate UniqueIds(items: seq<KnowledgeItem>) {
    forall i, j :: 0 <= i < j < |items| ==> items[i].id != items[j].id
  }

  /** Upserting keeps ids unique and leaves exactly one item with the new id. */
  lemma UpsertKeepsIdsUnique(items: seq<KnowledgeItem>, item: KnowledgeItem)
    requires UniqueIds(items)
    ensures UniqueIds(Upsert(items, item))
    ensures HasId(Upsert(items, item), item.id)
    ensures forall j :: 0 <= j < |Upsert(items, item)| && Upsert(items, item)[j].id == item.id ==> Upsert(items, item)[j] == item
  {
    var r := Upsert(items, item);
    if HasId(items, item.id) {
      var k := IndexOfId(items, item.id);
      assert r[k].id == item.id;
    } else {
      assert r[|items|] == item;
    }
  }

  /** Upserting the same item twice is the same as once. */
  lemma UpsertIdempotent(items: seq<KnowledgeItem>, item: KnowledgeItem)
    ensures Upsert(Upsert(items, item), item) == Upsert(items, item)
  {
    var r := Upsert(items, item);
    if HasId(items, item.id) {
      var k := IndexOfId(items, item.id);
      assert IndexOfId(r, item.id) == k by {
        assert r[k].id == item.id;
        assert forall j :: 0 <= j < k ==> r[j] == items[j];
      }
    } else {
      assert r[|items|].id == item.id;
      assert IndexOfId(r, item.id) == |items| by {
        assert forall j :: 0 <= j < |items| ==> r[j] == items[j];
      }
    }
  }

  function NotOnDate(date: string): DailyLog -> bool {
    (l: DailyLog) => l.date != date
  }

  /** `saveDailyLog`'s list: the new log first, then every older log of another date. */
  function PrependLog(logs: seq<DailyLog>, log: DailyLog): (r: seq<DailyLog>)
    ensures r != [] && r[0] == log
    ensures forall i :: 1 <= i < |r| ==> r[i].date != log.date && r[i] in logs
    ensures forall l :: l in logs && l.date != log.date ==> l in r
  {
    [log] + Filter(logs, NotOnDate(log.date))
  }

  predicate OnePerDate(logs: seq<DailyLog>) {
    forall i, j :: 0 <= i < j < |logs| ==> logs[i].date != logs[j].date
  }

  lemma {:induction false} FilterOnePerDate(logs: seq<DailyLog>, p: DailyLog -> bool)
    requires OnePerDate(logs)
    ensures OnePerDate(Filter(logs, p))
  {
    if logs != [] {
      FilterOnePerDate(logs[1..], p);
      var t := Filter(logs[1..], p);
      forall k | 0 <= k < |t| ensures t[k].date != logs[0].date {
        assert t[k] in logs[1..];
      }
    }
  }

  /** Saving a log keeps at most one log per date. */
  lemma PrependLogOnePerDate(logs: seq<DailyLog>, log: DailyLog)
    requires OnePerDate(logs)
    ensures OnePerDate(PrependLog(logs, log))
  {
    FilterOnePerDate(logs, NotOnDate(log.date));
  }

  function NotWithId(id: string): InfoItem -> bool {
    (i: InfoItem) => i.id != id
  }

  /** `deleteInfoItem`'s list: the items with another id, order kept. */
  function RemoveInfo(items: seq<InfoItem>, id: string): (r: seq<InfoItem>)
    ensures forall i :: 0 <= i < |r| ==> r[i].id != id && r[i] in items
    ensures forall x :: x in items && x.id != id ==> x in r
    ensures (forall i :: 0 <= i < |items| ==> items[i].id != id) ==> r == items
  {
    Filter(items, NotWithId(id))
  }

  /** `saveError` and `saveInfoItem` replace an inline `data:` URL by the path that
      `saveFileToDisk` returns, given here as `diskUrl`. */
  function StoredError(e: ErrorEntry, diskUrl: string): (r: ErrorEntry)
    ensures r.(imageUrl := e.imageUrl) == e
    ensures r.imageUrl != e.imageUrl ==> e.imageUrl.Some? && StartsWith(e.imageUrl.value, "data:")
  {
    if e.imageUrl.Some? && StartsWith(e.imageUrl.value, "data:") then e.(imageUrl := Some(diskUrl)) else e
  }

  function StoredInfoItem(i: InfoItem, diskUrl: string): (r: InfoItem)
    ensures r.(dataUrl := i.dataUrl) == i
    ensures r.dataUrl != i.dataUrl ==> StartsWith(i.dataUrl, "data:")
  {
    if StartsWith(i.dataUrl, "data:") then i.(dataUrl := diskUrl) else i
  }

  // ---------------------------------------------------------------------------
  // The schedule sort
  // ---------------------------------------------------------------------------

  /** The sort key `new Date(p.start).getTime()`: a time value, or NaN for a phase
      without a readable start date. */
  function StartKey(p: Phase): Option<int> {
    match ParseLocal(p.start)
    case Some(DateAt(t)) => Some(t)
    case _ => None
  }

  predicate IsDated(p: Phase) { StartKey(p).Some? }

  function KeyOf(p: Phase): int { if StartKey(p).Some? then StartKey(p).value else 0 }

  predicate SortedByStart(s: seq<Phase>) {
    forall i, j :: 0 <= i < j < |s| && IsDated(s[i]) && IsDated(s[j]) ==> KeyOf(s[i]) <= KeyOf(s[j])
  }

  function Dated(): Phase -> bool { (p: Phase) => IsDated(p) }
  function Undated(): Phase -> bool { (p: Phase) => !IsDated(p) }
  function Key(): Phase -> real { (p: Phase) => KeyOf(p) as real }

  /** `saveSchedule`'s order: the dated phases by start date, ties in input order,
      then the undated phases in input order. JavaScript leaves the position of phases
      whose comparison is NaN to the engine; this is one admissible choice. */
  function SortSchedule(s: seq<Phase>): seq<Phase> {
    SortByKey(Filter(s, Dated()), Key()) + Filter(s, Undated())
  }

  /** The stored schedule is a permutation of its input, and phases with start dates
      appear in order of those dates. */
  lemma SortScheduleSpec(s: seq<Phase>)
    ensures multiset(SortSchedule(s)) == multiset(s)
    ensures SortedByStart(SortSchedule(s))
  {
    SortFilteredSpec(s, Dated(), Undated(), Key());
  }

  // ---------------------------------------------------------------------------
  // Clear, restore and import
  // ---------------------------------------------------------------------------

  /** The value a backup field writes under key `k`, if the field is present. */
  function FieldOf(b: Backup, k: StorageKey): Option<Value> {
    match k
    case ProfileKey => if b.profile.Some? then Some(ProfileValue(b.profile.value)) else None
    case MocksKey => if b.mocks.Some? then Some(MocksValue(b.mocks.value)) else None
    case ErrorsKey => if b.errors.Some? then Some(ErrorsValue(b.errors.value)) else None
    case DailyKey => if b.daily.Some? then Some(DailyValue(b.daily.value)) else None
    case InfoKey => if b.infoImages.Some? then Some(InfoValue(b.infoImages.value)) else None
    case SyllabusKey => if b.syllabus.Some? then Some(SyllabusValue(b.syllabus.value)) else None
    case ScheduleKey => if b.schedule.Some? then Some(ScheduleValue(b.schedule.value)) else None
    case KnowledgeKey => if b.knowledge.Some? then Some(KnowledgeValue(b.knowledge.value)) else None
    case CalcStatsKey => if b.calcStats.Some? then Some(CalcStatsValue(b.calcStats.value)) else None
    case CheatSheetKey => if b.cheatSheet.Some? then Some(CheatSheetValue(b.cheatSheet.value)) else None
    case FlashcardsKey => if b.flashcards.Some? then Some(FlashcardsValue(b.flashcards.value)) else None
    case GauntletKey => None
    case BackupKey => None
  }

  /** The writes a restore or an import makes: one per field present. */
  function Fields(b: Backup): (m: LocalStorage)
    ensures forall k :: k in m ==> k in DataKeys && WellTyped(k, m[k])
    ensures forall k :: k in DataKeys && FieldOf(b, k).Some? ==> k in m && m[k] == FieldOf(b, k).value
  {
    map k | k in DataKeys && FieldOf(b, k).Some? :: FieldOf(b, k).value
  }

  /** A restore or an import overwrites exactly the keys of the fields present and
      never touches the backup key or the gauntlet key. */
  lemma RestoreOverwritesPresent(s: LocalStorage, b: Backup)
    ensures forall k :: k in DataKeys && FieldOf(b, k).Some? ==> (s + Fields(b))[k] == FieldOf(b, k).value
    ensures forall k :: !(k in DataKeys && FieldOf(b, k).Some?) ==>
      (k in s + Fields(b) <==> k in s) && (k in s ==> (s + Fields(b))[k] == s[k])
    ensures BackupKey !in Fields(b) && GauntletKey !in Fields(b)
    ensures RestoredFrom(s + Fields(b), b)
  {
  }

  /** `clearAllData`: every data key goes; the backup and the gauntlet statistics stay. */
  function Cleared(s: LocalStorage): (r: LocalStorage)
    ensures forall k :: k in DataKeys ==> k !in r
    ensures forall k :: k !in DataKeys ==> (k in r <==> k in s) && (k in r ==> r[k] == s[k])
    ensures BackupKey in s ==> BackupKey in r && r[BackupKey] == s[BackupKey]
    ensures GauntletKey in s ==> GauntletKey in r && r[GauntletKey] == s[GauntletKey]
  {
    s - set k | k in DataKeys
  }

  /** An import is accepted only with a non-empty time stamp. */
  predicate Importable(p: ImportPayload) {
    p.Parsed? && p.backup.timestamp.Some? && p.backup.timestamp.value != ""
  }

  /** `getBackupTimestamp`: the stamp of the last backup, or null without one. */
  function GetBackupTimestamp(s: LocalStorage): (r: Option<string>)
    ensures BackupKey !in s ==> r.None?
    ensures BackupKey in s && s[BackupKey].BackupValue? ==> r == s[BackupKey].backup.timestamp
  {
    if BackupKey in s && s[BackupKey].BackupValue? then s[BackupKey].backup.timestamp else None
  }

  /** Every save that takes a backup leaves that save's stamp as the backup time. */
  lemma BackupTimestampAfterBackup(s: LocalStorage, loadedAt: string, stamp: string)
    ensures GetBackupTimestamp(WithBackup(s, loadedAt, stamp)) == Some(stamp)
  {
    assert WithBackup(s, loadedAt, stamp)[BackupKey] == BackupValue(Snapshot(s, loadedAt, stamp));
  }

  /** The object `getAllDataForExport` returns: every getter's value, the time of the
      call and the format version. */
  datatype ExportData = ExportData(data: Backup, version: string)

  function GetAllDataForExport(s: LocalStorage, loadedAt: string, now: string): (e: ExportData)
    ensures e.version == "1.5" && e.data.timestamp == Some(now)
  {
    ExportData(Snapshot(s, loadedAt, now), "1.5")
  }

  /** A backup that holds every field. */
  predicate Complete(b: Backup) {
    b.profile.Some? && b.mocks.Some? && b.errors.Some? && b.daily.Some? && b.infoImages.Some? &&
    b.syllabus.Some? && b.schedule.Some? && b.knowledge.Some? && b.calcStats.Some? &&
    b.cheatSheet.Some? && b.flashcards.Some?
  }

  /** Restoring or importing a complete backup writes every data key. */
  lemma CompleteWritesAll(b: Backup)
    requires Complete(b)
    ensures forall k :: k in DataKeys <==> k in Fields(b)
  {
    forall k | k in DataKeys ensures k in Fields(b) {
      assert FieldOf(b, k).Some?;
    }
  }

  /** An exported file, parsed again, is accepted by the import, which writes every
      data key. */
  lemma ExportImportable(s: LocalStorage, loadedAt: string, now: string)
    requires now != ""
    ensures Importable(Parsed(GetAllDataForExport(s, loadedAt, now).data))
    ensures forall k :: k in DataKeys <==> k in Fields(GetAllDataForExport(s, loadedAt, now).data)
  {
    var b := GetAllDataForExport(s, loadedAt, now).data;
    assert Complete(b);
    CompleteWritesAll(b);
  }

  /** `r` holds, under every data key, the value of the backup's field when present. */
  predicate RestoredFrom(r: LocalStorage, b: Backup) {
    forall k :: FieldOf(b, k).Some? ==> k in r && r[k] == FieldOf(b, k).value
  }

  /** After restoring or importing a complete backup, the record lists and the
      syllabus read back as its fields. */
  lemma CompleteReadBackRecords(r: LocalStorage, b: Backup)
    requires Complete(b) && RestoredFrom(r, b)
    ensures GetMocks(r) == b.mocks.value
    ensures GetErrors(r) == b.errors.value
    ensures GetDailyLogs(r) == b.daily.value
    ensures GetSyllabusStatus(r) == b.syllabus.value
    ensures GetSchedule(r) == b.schedule.value
    ensures GetCalcStats(r) == b.calcStats.value
  {
    assert FieldOf(b, MocksKey).Some? && FieldOf(b, ErrorsKey).Some? && FieldOf(b, DailyKey).Some?;
    assert FieldOf(b, SyllabusKey).Some? && FieldOf(b, ScheduleKey).Some? && FieldOf(b, CalcStatsKey).Some?;
  }

  /** The same for the getters that normalise or fall back: a profile with its target
      years, a non-empty knowledge base, the resources with their types. */
  lemma CompleteReadBackContent(r: LocalStorage, b: Backup, loadedAt: string, now: string)
    requires Complete(b) && RestoredFrom(r, b)
    requires b.knowledge.value != [] && b.profile.value.targetYears.Some?
    ensures GetKnowledgeBase(r) == b.knowledge.value && GetFlashcards(r, loadedAt) == b.flashcards.value
    ensures GetCheatSheet(r, now) == b.cheatSheet.value && GetInfoItems(r) == NormaliseAll(b.infoImages.value)
    ensures Stored(GetUserProfile(r)) == b.profile.value
  {
    assert FieldOf(b, KnowledgeKey).Some? && FieldOf(b, FlashcardsKey).Some? && FieldOf(b, CheatSheetKey).Some?;
    assert FieldOf(b, InfoKey).Some? && FieldOf(b, ProfileKey).Some?;
  }

  /** Importing an exported file gives back, key by key, what each getter returned at
      export time. */
  lemma ExportImportRoundTrip(s: LocalStorage, loadedAt: string, now: string)
    ensures var r := s + Fields(GetAllDataForExport(s, loadedAt, now).data);
      GetUserProfile(r) == GetUserProfile(s) && GetMocks(r) == GetMocks(s) && GetErrors(r) == GetErrors(s) &&
      GetDailyLogs(r) == GetDailyLogs(s) && GetSyllabusStatus(r) == GetSyllabusStatus(s) &&
      GetSchedule(r) == GetSchedule(s) && GetKnowledgeBase(r) == GetKnowledgeBase(s) &&
      GetCalcStats(r) == GetCalcStats(s) && GetFlashcards(r, loadedAt) == GetFlashcards(s, loadedAt) &&
      GetInfoItems(r) == GetInfoItems(s) && GetCheatSheet(r, now) == GetCheatSheet(s, now)
  {
    var b := Snapshot(s, loadedAt, now);
    assert Complete(b);
    RestoreOverwritesPresent(s, b);
    CompleteReadBackRecords(s + Fields(b), b);
    CompleteReadBackContent(s + Fields(b), b, loadedAt, now);
    var items := GetInfoItems(s);
    assert NormaliseAll(StoreAll(items)) == items;
    var r := s + Fields(b);
    CompleteWritesAll(b);
    assert r[ProfileKey] == ProfileValue(Stored(GetUserProfile(s)));
  }

  // ---------------------------------------------------------------------------
  // The store
  // ---------------------------------------------------------------------------

  /** Writing a value of the key's type keeps the storage well typed. */
  lemma UpdateWellTyped(s: LocalStorage, k: StorageKey, v: Value)
    requires WellTypedStorage(s) && WellTyped(k, v)
    ensures WellTypedStorage(s[k := v])
  {
  }

  /** `createBackup` changes the backup key and nothing else. */
  lemma BackupOnlyTouchesBackup(s: LocalStorage, loadedAt: string, stamp: string)
    ensures WellTypedStorage(s) ==> WellTypedStorage(WithBackup(s, loadedAt, stamp))
    ensures forall k :: k != BackupKey ==>
      (k in WithBackup(s, loadedAt, stamp) <==> k in s) && (k in s ==> WithBackup(s, loadedAt, stamp)[k] == s[k])
  {
  }

  class Store {
    var data: LocalStorage
    /** The ISO time at which the constants module was loaded. */
    const loadedAt: string

    ghost predicate Valid()
      reads this
    {
      WellTypedStorage(data)
    }

    constructor (loadedAt: string)
      ensures Valid() && data == map[] && this.loadedAt == loadedAt
    {
      data := map[];
      this.loadedAt := loadedAt;
    }

    method CreateBackup(stamp: string)
      modifies this
      requires Valid()
      ensures Valid()
      ensures data == WithBackup(old(data), loadedAt, stamp)
    {
      BackupOnlyTouchesBackup(data, loadedAt, stamp);
      data := WithBackup(data, loadedAt, stamp);
    }

    /** The common shape of the save operations: write one key, then take a backup. */
    method Write(k: StorageKey, v: Value, stamp: string)
      modifies this
      requires Valid() && WellTyped(k, v) && k != BackupKey
      ensures Valid()
      ensures data == WithBackup(old(data)[k := v], loadedAt, stamp)
      ensures k in data && data[k] == v
    {
      UpdateWellTyped(data, k, v);
      data := data[k := v];
      BackupOnlyTouchesBackup(data, loadedAt, stamp);
      CreateBackup(stamp);
    }

    method SaveUserProfile(p: UserProfile, stamp: string)
      modifies this
      requires Valid()
      ensures Valid()
      ensures data == WithBackup(old(data)[ProfileKey := ProfileValue(Stored(p))], loadedAt, stamp)
      ensures GetUserProfile(data) == p
    {
      Write(ProfileKey, ProfileValue(Stored(p)), stamp);
    }

    /** `saveMock`: the new mock goes first. */
    method SaveMock(m: MockTest, stamp: string)
      modifies this
      requires Valid()
      ensures Valid()
      ensures data == WithBackup(old(data)[MocksKey := MocksValue([m] + GetMocks(old(data)))], loadedAt, stamp)
      ensures GetMocks(data) == [m] + GetMocks(old(data))
    {
      Write(MocksKey, MocksValue([m] + GetMocks(data)), stamp);
    }

    /** `saveError`: the entry, with an inline image moved to disk, goes first. */
    method SaveError(e: ErrorEntry, diskUrl: string, stamp: string)
      modifies this
      requires Valid()
      ensures Valid()
      ensures data == WithBackup(old(data)[ErrorsKey := ErrorsValue([StoredError(e, diskUrl)] + GetErrors(old(data)))], loadedAt, stamp)
      ensures GetErrors(data) == [StoredError(e, diskUrl)] + GetErrors(old(data))
    {
      var entry := StoredError(e, diskUrl);
      Write(ErrorsKey, ErrorsValue([entry] + GetErrors(data)), stamp);
    }

    /** `saveDailyLog`: the log replaces any log of the same date and goes first. */
    method SaveDailyLog(log: DailyLog, stamp: string)
      modifies this
      requires Valid()
      ensures Valid()
      ensures data == WithBackup(old(data)[DailyKey := DailyValue(PrependLog(GetDailyLogs(old(data)), log))], loadedAt, stamp)
      ensures GetDailyLogs(data) == PrependLog(GetDailyLogs(old(data)), log)
    {
      Write(DailyKey, DailyValue(PrependLog(GetDailyLogs(data), log)), stamp);
    }

    /** `saveInfoItem`: the item, with inline data moved to disk, goes first. */
    method SaveInfoItem(item: InfoItem, diskUrl: string, stamp: string)
      modifies this
      requires Valid()
      ensures Valid()
      ensures data == WithBackup(old(data)[InfoKey := InfoValue(StoreAll([StoredInfoItem(item, diskUrl)] + GetInfoItems(old(data))))], loadedAt, stamp)
    {
      var stored := StoredInfoItem(item, diskUrl);
      Write(InfoKey, InfoValue(StoreAll([stored] + GetInfoItems(data))), stamp);
    }

    method DeleteInfoItem(id: string, stamp: string)
      modifies this
      requires Valid()
      ensures Valid()
      ensures data == WithBackup(old(data)[InfoKey := InfoValue(StoreAll(RemoveInfo(GetInfoItems(old(data)), id)))], loadedAt, stamp)
    {
      Write(InfoKey, InfoValue(StoreAll(RemoveInfo(GetInfoItems(data), id))), stamp);
    }

    method SaveSyllabusStatus(status: Status, stamp: string)
      modifies this
      requires Valid()
      ensures Valid()
      ensures data == WithBackup(old(data)[SyllabusKey := SyllabusValue(status)], loadedAt, stamp)
      ensures GetSyllabusStatus(data) == status
    {
      Write(SyllabusKey, SyllabusValue(status), stamp);
    }

    /** `saveSchedule`: stores the phases ordered by start date. */
    method SaveSchedule(schedule: seq<Phase>, stamp: string)
      modifies this
      requires Valid()
      ensures Valid()
      ensures data == WithBackup(old(data)[ScheduleKey := ScheduleValue(SortSchedule(schedule))], loadedAt, stamp)
      ensures GetSchedule(data) == SortSchedule(schedule)
    {
      var sorted := SortSchedule(schedule);
      Write(ScheduleKey, ScheduleValue(sorted), stamp);
    }

    /** `saveKnowledgeItem`: upsert by id into the current base. */
    method SaveKnowledgeItem(item: KnowledgeItem, stamp: string)
      modifies this
      requires Valid()
      ensures Valid()
      ensures data == WithBackup(old(data)[KnowledgeKey := KnowledgeValue(Upsert(GetKnowledgeBase(old(data)), item))], loadedAt, stamp)
      ensures GetKnowledgeBase(data) == Upsert(GetKnowledgeBase(old(data)), item)
    {
      var current := GetKnowledgeBase(data);
      var updated := Upsert(current, item);
      UpsertGrows(current, item);
      Write(KnowledgeKey, KnowledgeValue(updated), stamp);
      KnowledgeReadBack(data, updated);
    }

    /** `saveCheatSheet` writes without a backup. */
    method SaveCheatSheet(sheet: CheatSheet)
      modifies this
      requires Valid()
      ensures Valid()
      ensures data == old(data)[CheatSheetKey := CheatSheetValue(sheet)]
      ensures forall nowIso :: GetCheatSheet(data, nowIso) == sheet
    {
      data := data[CheatSheetKey := CheatSheetValue(sheet)];
    }

    /** `resetSchedule`: saves the default template. */
    method ResetSchedule(stamp: string)
      modifies this
      requires Valid()
      ensures Valid()
      ensures data == WithBackup(old(data)[ScheduleKey := ScheduleValue(SortSchedule(DefaultSchedule))], loadedAt, stamp)
      ensures GetSchedule(data) == SortSchedule(DefaultSchedule)
    {
      SaveSchedule(DefaultSchedule, stamp);
    }

    /** `saveCalcStats` writes without a backup. */
    method SaveCalcStats(stats: DrillStats)
      modifies this
      requires Valid()
      ensures Valid()
      ensures data == old(data)[CalcStatsKey := CalcStatsValue(stats)]
    {
      data := data[CalcStatsKey := CalcStatsValue(stats)];
    }

    method SaveFlashcards(cards: seq<Flashcard>, stamp: string)
      modifies this
      requires Valid()
      ensures Valid()
      ensures data == WithBackup(old(data)[FlashcardsKey := FlashcardsValue(cards)], loadedAt, stamp)
      ensures GetFlashcards(data, loadedAt) == cards
    {
      Write(FlashcardsKey, FlashcardsValue(cards), stamp);
    }

    /** `addFlashcard`: appends to the current deck. */
    method AddFlashcard(card: Flashcard, stamp: string)
      modifies this
      requires Valid()
      ensures Valid()
      ensures GetFlashcards(data, loadedAt) == GetFlashcards(old(data), loadedAt) + [card]
      ensures data == WithBackup(old(data)[FlashcardsKey := FlashcardsValue(GetFlashcards(old(data), loadedAt) + [card])], loadedAt, stamp)
    {
      SaveFlashcards(GetFlashcards(data, loadedAt) + [card], stamp);
    }

    /** `clearAllData`. */
    method ClearAllData()
      modifies this
      requires Valid()
      ensures Valid()
      ensures data == Cleared(old(data))
    {
      data := Cleared(data);
    }

    /** `restoreBackup`: false without a backup; otherwise writes the fields present. */
    method RestoreBackup() returns (ok: bool)
      modifies this
      requires Valid()
      ensures Valid()
      ensures ok <==> BackupKey in old(data)
      ensures !ok ==> data == old(data)
      ensures ok ==> data == old(data) + Fields(old(data)[BackupKey].backup)
    {
      if BackupKey !in data {
        return false;
      }
      data := data + Fields(data[BackupKey].backup);
      return true;
    }

    /** `importDataFromFile`: rejects unparsable text and a payload without a time stamp;
        otherwise writes the fields present and takes a backup. */
    method ImportDataFromFile(payload: ImportPayload, stamp: string) returns (ok: bool)
      modifies this
      requires Valid()
      ensures Valid()
      ensures ok <==> Importable(payload)
      ensures !ok ==> data == old(data)
      ensures ok ==> data == WithBackup(old(data) + Fields(payload.backup), loadedAt, stamp)
    {
      if !Importable(payload) {
        return false;
      }
      data := data + Fields(payload.backup);
      CreateBackup(stamp);
      return true;
    }
  }
}
