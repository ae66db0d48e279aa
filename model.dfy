/** The records of types.ts and the data of src/constants.ts. */
module Model {
  import opened Common

  /** The twelve subjects; `Name` is the string each enum member stands for. */
  datatype Subject = CN | OS | DBMS | TOC | CD | DLD | COA | DS | ALGO | DM | EM | GA

  function Name(s: Subject): string {
    match s
    case CN => "Computer Networks"
    case OS => "Operating Systems"
    case DBMS => "DBMS"
    case TOC => "Theory of Computation"
    case CD => "Compiler Design"
    case DLD => "Digital Logic"
    case COA => "COA"
    case DS => "Data Structures"
    case ALGO => "Algorithms"
    case DM => "Discrete Math"
    case EM => "Engg Math"
    case GA => "General Aptitude"
  }

  /** `SUBJECTS = Object.values(Subject)`: every subject once, in declaration order. */
  const Subjects: seq<Subject> := [CN, OS, DBMS, TOC, CD, DLD, COA, DS, ALGO, DM, EM, GA]

  datatype MistakeType = Concept | Silly | TimeManagement | Guess | Skipped

  datatype UserProfile = UserProfile(name: string, examDate: string, targetYears: seq<int>, isSetupComplete: bool)

  /** A schedule phase; an absent `isUndecided` reads as false. */
  datatype Phase = Phase(id: string, name: string, start: string, end: string, isUndecided: bool)

  datatype MockTest = MockTest(
    id: string, date: string, provider: string, totalMarks: real, score: real,
    totalAttempts: int, correctAttempts: int, wrongAttempts: int, timeSpentMinutes: real)

  datatype ErrorEntry = ErrorEntry(
    id: string, date: string, subject: Subject, topic: string, mistakeType: MistakeType,
    timeSpentSeconds: real, notes: string, reviewCount: int, imageUrl: Option<string>)

  datatype InfoKind = Image | Pdf

  datatype InfoItem = InfoItem(id: string, title: string, date: string, dataUrl: string, kind: InfoKind)

  datatype DailyLog = DailyLog(
    id: string, date: string, studyHours: Dict<Subject, real>, topicsCovered: seq<string>,
    practiceQuestions: int, practiceCorrect: int, revisionDone: bool, focusLevel: int,
    weakestConcept: string)

  /** The four flags kept per phase id (or per subject name). */
  datatype StatusRecord = StatusRecord(completed: bool, rev1: bool, rev2: bool, rev3: bool)

  const AllFalse := StatusRecord(false, false, false, false)

  /** The name of one of the four flags. */
  datatype Flag = Completed | Rev1 | Rev2 | Rev3

  function Get(r: StatusRecord, f: Flag): bool {
    match f
    case Completed => r.completed
    case Rev1 => r.rev1
    case Rev2 => r.rev2
    case Rev3 => r.rev3
  }

  /** The record with flag `f` set to `b` and the other three kept. */
  function With(r: StatusRecord, f: Flag, b: bool): (r': StatusRecord)
    ensures Get(r', f) == b
    ensures forall g :: g != f ==> Get(r', g) == Get(r, g)
  {
    match f
    case Completed => r.(completed := b)
    case Rev1 => r.(rev1 := b)
    case Rev2 => r.(rev2 := b)
    case Rev3 => r.(rev3 := b)
  }

  /** SyllabusStatus: a record per key. */
  type Status = map<string, StatusRecord>

  /** `status[key]?.completed`, false for a missing record. */
  function IsCompleted(status: Status, key: string): bool {
    key in status && status[key].completed
  }

  /** The record under `key`, or the all-false record a toggle creates when there is none. */
  function RecordOf(status: Status, key: string): StatusRecord {
    if key in status then status[key] else AllFalse
  }

  /** The status after flipping flag `f` of `key`, creating an all-false record first. */
  function Toggled(status: Status, key: string, f: Flag): (r: Status)
    ensures key in r && Get(r[key], f) == !Get(RecordOf(status, key), f)
    ensures forall g :: g != f ==> Get(r[key], g) == Get(RecordOf(status, key), g)
    ensures forall k :: k != key ==> (k in r <==> k in status) && (k in status ==> r[k] == status[k])
  {
    var rec := RecordOf(status, key);
    status[key := With(rec, f, !Get(rec, f))]
  }

  /** Toggling the same flag twice restores the record (an all-false one if there was none). */
  lemma ToggleTwice(status: Status, key: string, f: Flag)
    ensures Toggled(Toggled(status, key, f), key, f) == status[key := RecordOf(status, key)]
    ensures key in status ==> Toggled(Toggled(status, key, f), key, f) == status
  {
    var once := Toggled(status, key, f);
    var twice := Toggled(once, key, f);
    var rec := RecordOf(status, key);
    assert twice[key] == rec by {
      assert forall g :: Get(twice[key], g) == Get(rec, g);
      FlagsDetermine(twice[key], rec);
    }
  }

  /** A record is determined by its four flags. */
  lemma FlagsDetermine(a: StatusRecord, b: StatusRecord)
    requires forall g :: Get(a, g) == Get(b, g)
    ensures a == b
  {
    assert Get(a, Completed) == Get(b, Completed) && Get(a, Rev1) == Get(b, Rev1);
    assert Get(a, Rev2) == Get(b, Rev2) && Get(a, Rev3) == Get(b, Rev3);
  }

  datatype Category = SubjectCategory(subject: Subject) | General

  datatype KnowledgeItem = KnowledgeItem(id: string, keywords: seq<string>, answer: string, category: Category)

  datatype Sender = User | Bot

  datatype ChatMessage = ChatMessage(id: string, text: string, sender: Sender, timestamp: int)

  datatype DrillStats = DrillStats(totalAttempts: int, correct: int, avgTimeSec: real, bestTimeSec: real)

  datatype CheatSheet = CheatSheet(content: string, lastModified: string)

  datatype Flashcard = Flashcard(
    id: string, front: string, back: string, subject: Subject, box: int,
    nextReviewDate: string, lastReviewed: Option<string>)

  // ---------------------------------------------------------------------------
  // Constants
  // ---------------------------------------------------------------------------

  /** The keys under which the application keeps its data in `localStorage`. */
  datatype StorageKey =
    | ProfileKey | MocksKey | ErrorsKey | DailyKey | InfoKey | SyllabusKey | ScheduleKey
    | KnowledgeKey | CalcStatsKey | CheatSheetKey | FlashcardsKey | GauntletKey | BackupKey

  /** The key strings (`STORAGE_KEYS` and `BACKUP_KEY`). */
  function KeyName(k: StorageKey): string {
    match k
    case ProfileKey => "gate_forge_user_profile"
    case MocksKey => "gate_forge_mocks"
    case ErrorsKey => "gate_forge_errors"
    case DailyKey => "gate_forge_daily"
    case InfoKey => "gate_forge_info_images"
    case SyllabusKey => "gate_forge_syllabus_status"
    case ScheduleKey => "gate_forge_schedule_v2"
    case KnowledgeKey => "gate_forge_knowledge_base"
    case CalcStatsKey => "gate_forge_calc_stats"
    case CheatSheetKey => "gate_forge_cheat_sheet"
    case FlashcardsKey => "gate_forge_flashcards"
    case GauntletKey => "gate_forge_gauntlet_stats"
    case BackupKey => "gate_forge_backup"
  }

  /** The eleven keys that hold the learner's data (every key but the gauntlet's and the backup's). */
  const DataKeys: seq<StorageKey> := [ProfileKey, MocksKey, ErrorsKey, DailyKey, InfoKey, SyllabusKey,
                                      ScheduleKey, KnowledgeKey, CalcStatsKey, CheatSheetKey, FlashcardsKey]

  /** The factor applied to wrong answers to estimate negative marks. */
  const AvgNegativeFactor: real := 0.45

  const DefaultExamDate := "2027-02-06T09:00:00"

  const DefaultSchedule: seq<Phase> := [
    Phase("Phase1", "C Programming + Data Structures", "2025-12-15", "2026-01-15", false),
    Phase("Phase2", "Discrete Structures", "2026-01-15", "2026-02-15", false),
    Phase("Phase3", "Algorithms", "2026-02-15", "2026-03-15", false),
    Phase("Phase4", "General Aptitude", "2026-03-15", "2026-04-15", false),
    Phase("Phase5", "Engineering Mathematics", "2026-05-05", "2026-07-05", false),
    Phase("Phase6", "DBMS", "2026-07-05", "2026-08-05", false),
    Phase("Phase7a", "Operating Systems", "2026-08-05", "2026-08-25", false),
    Phase("Phase7b", "Computer Networks", "2026-08-25", "2026-09-15", false),
    Phase("Phase7c", "Digital Logic", "2026-09-15", "2026-10-05", false),
    Phase("Phase7d", "Computer Organization", "2026-10-05", "2026-10-31", false),
    Phase("Phase8", "Revision + Deep PYQs + Mocks", "2026-11-01", "2027-01-31", false)
  ]

  const DefaultCalcStats := DrillStats(0, 0, 0.0, 9999.0)

  const DefaultCheatSheetContent := "# My GATE Cheat Sheet\n\n- Add formulas here..."

  /** The built-in knowledge base: the 47 items of the template, in order. */
  function InitialKnowledgeBase(): (r: seq<KnowledgeItem>)
    ensures |r| == 47
  {
    seq(47, BuiltInItem)
  }

  /** Item `n` (counted from 0) of the built-in knowledge base; any index past the
      end gives the last item. Each item keeps its id, keywords and category; the
      answer texts are not reproduced and stand here as the empty string. */
  function BuiltInItem(n: int): KnowledgeItem {
    match n
    case 0 => KnowledgeItem("k1", ["quick", "sort", "complexity", "worst", "case", "average"], "",
        SubjectCategory(ALGO))
    case 1 => KnowledgeItem("k2", ["merge", "sort", "complexity"], "",
        SubjectCategory(ALGO))
    case 2 => KnowledgeItem("k3", ["dijkstra", "shortest", "path"], "",
        SubjectCategory(ALGO))
    case 3 => KnowledgeItem("k4", ["bellman", "ford", "negative"], "",
        SubjectCategory(ALGO))
    case 4 => KnowledgeItem("k5", ["master", "theorem"], "",
        SubjectCategory(ALGO))
    case 5 => KnowledgeItem("k5a", ["prim", "kruskal", "mst"], "",
        SubjectCategory(ALGO))
    case 6 => KnowledgeItem("k5b", ["floyd", "warshall", "all", "pairs"], "",
        SubjectCategory(ALGO))
    case 7 => KnowledgeItem("k6", ["bst", "binary", "search", "tree", "complexity"], "",
        SubjectCategory(DS))
    case 8 => KnowledgeItem("k7", ["avl", "tree", "height"], "",
        SubjectCategory(DS))
    case 9 => KnowledgeItem("k8", ["stack", "queue", "application"], "",
        SubjectCategory(DS))
    case 10 => KnowledgeItem("k8a", ["hashing", "collision", "resolution"], "",
        SubjectCategory(DS))
    case 11 => KnowledgeItem("k8b", ["heap", "min", "max", "priority"], "",
        SubjectCategory(DS))
    case 12 => KnowledgeItem("dm_logic", ["propositional", "logic", "predicate", "tautology"], "",
        SubjectCategory(DM))
    case 13 => KnowledgeItem("dm_rel", ["relations", "equivalence", "partial", "order", "poset"], "",
        SubjectCategory(DM))
    case 14 => KnowledgeItem("dm_graph", ["graph", "theory", "handshaking", "planar", "chromatic"], "",
        SubjectCategory(DM))
    case 15 => KnowledgeItem("em_la", ["matrix", "rank", "eigenvalue", "eigenvector", "cayley"], "",
        SubjectCategory(EM))
    case 16 => KnowledgeItem("em_calc", ["calculus", "limits", "continuity", "maxima", "minima"], "",
        SubjectCategory(EM))
    case 17 => KnowledgeItem("em_prob", ["probability", "bayes", "conditional", "random", "variable"], "",
        SubjectCategory(EM))
    case 18 => KnowledgeItem("dld_bool", ["boolean", "algebra", "laws", "kmap", "minimization"], "",
        SubjectCategory(DLD))
    case 19 => KnowledgeItem("dld_comb", ["combinational", "circuit", "mux", "decoder", "adder"], "",
        SubjectCategory(DLD))
    case 20 => KnowledgeItem("dld_seq", ["sequential", "flip", "flop", "counter", "latch"], "",
        SubjectCategory(DLD))
    case 21 => KnowledgeItem("dld_num", ["floating", "point", "ieee", "754", "number"], "",
        SubjectCategory(DLD))
    case 22 => KnowledgeItem("coa_addr", ["addressing", "modes", "immediate", "direct", "indirect"], "",
        SubjectCategory(COA))
    case 23 => KnowledgeItem("coa_pipe", ["pipelining", "hazard", "speedup", "throughput"], "",
        SubjectCategory(COA))
    case 24 => KnowledgeItem("coa_cache", ["cache", "mapping", "associative", "hit", "miss"], "",
        SubjectCategory(COA))
    case 25 => KnowledgeItem("coa_io", ["io", "interface", "interrupt", "dma"], "",
        SubjectCategory(COA))
    case 26 => KnowledgeItem("pds_ptr", ["pointer", "array", "c", "programming"], "",
        SubjectCategory(DS))
    case 27 => KnowledgeItem("pds_rec", ["recursion", "static", "variable"], "",
        SubjectCategory(DS))
    case 28 => KnowledgeItem("toc_reg", ["regular", "language", "finite", "automata", "dfa"], "",
        SubjectCategory(TOC))
    case 29 => KnowledgeItem("toc_cfl", ["cfl", "context", "free", "pda", "grammar"], "",
        SubjectCategory(TOC))
    case 30 => KnowledgeItem("toc_dec", ["decidability", "undecidable", "halting", "turing"], "",
        SubjectCategory(TOC))
    case 31 => KnowledgeItem("cd_lex", ["lexical", "analysis", "token", "symbol", "table"], "",
        SubjectCategory(CD))
    case 32 => KnowledgeItem("cd_parse", ["parsing", "ll1", "lr0", "slr", "lalr"], "",
        SubjectCategory(CD))
    case 33 => KnowledgeItem("cd_sdt", ["sdt", "syntax", "directed", "translation"], "",
        SubjectCategory(CD))
    case 34 => KnowledgeItem("os_sched", ["cpu", "scheduling", "algorithm", "turnaround", "waiting"], "",
        SubjectCategory(OS))
    case 35 => KnowledgeItem("os_sync", ["synchronization", "semaphore", "mutex", "deadlock"], "",
        SubjectCategory(OS))
    case 36 => KnowledgeItem("os_mem", ["memory", "management", "paging", "virtual", "tlb"], "",
        SubjectCategory(OS))
    case 37 => KnowledgeItem("os_fs", ["file", "system", "inode", "disk"], "",
        SubjectCategory(OS))
    case 38 => KnowledgeItem("dbms_norm", ["normalization", "nf", "dependency", "bcnf", "3nf"], "",
        SubjectCategory(DBMS))
    case 39 => KnowledgeItem("dbms_trans", ["transaction", "acid", "serializability", "recoverability"], "",
        SubjectCategory(DBMS))
    case 40 => KnowledgeItem("dbms_sql", ["sql", "join", "aggregate", "subquery"], "",
        SubjectCategory(DBMS))
    case 41 => KnowledgeItem("dbms_index", ["indexing", "b tree", "b+ tree"], "",
        SubjectCategory(DBMS))
    case 42 => KnowledgeItem("cn_layers", ["osi", "model", "tcp/ip", "layers"], "",
        SubjectCategory(CN))
    case 43 => KnowledgeItem("cn_dl", ["datalink", "sliding", "window", "error", "control"], "",
        SubjectCategory(CN))
    case 44 => KnowledgeItem("cn_net", ["network", "ip", "routing", "subnet", "fragmentation"], "",
        SubjectCategory(CN))
    case 45 => KnowledgeItem("cn_trans", ["transport", "tcp", "udp", "congestion"], "",
        SubjectCategory(CN))
    case _ => KnowledgeItem("cn_app", ["application", "http", "dns", "smtp", "protocol"], "",
        SubjectCategory(CN))
  }

  /** The built-in deck: one card whose review date is the full ISO time of module load. */
  function InitialFlashcards(loadedAt: string): seq<Flashcard> {
    [Flashcard("f1", "Number of edges in a complete graph K_n?", "n(n-1) / 2", DM, 1, loadedAt, None)]
  }
}
