/** `du`: a directory walk without recursion, driven by a list of tasks and a stack of sizes. */
module DiskUsage {
  import opened Sequences

  // ---------- directory trees ----------

  /** A directory, or anything else whose `read_dir` fails. */
  datatype Dir = Dir(path: string, entries: seq<Entry>) | Unreadable(path: string)

  /** An entry is a sized file, a sub-directory, or an error of the iterator. */
  datatype Entry = File(size: nat) | Sub(dir: Dir) | BadEntry

  function EntryCount(dir: Dir): nat {
    if dir.Unreadable? then 0 else |dir.entries|
  }

  /** The size of the files directly in a directory, among its first n entries. */
  function FileSizes(dir: Dir, n: nat): nat
    requires n <= EntryCount(dir)
  {
    if n == 0 then 0
    else FileSizes(dir, n - 1) + if dir.entries[n - 1].File? then dir.entries[n - 1].size else 0
  }

  /** The recursive total of a directory. */
  function Total(dir: Dir): nat
    decreases dir, EntryCount(dir) + 1
  {
    FileSizes(dir, EntryCount(dir)) + SubTotals(dir, EntryCount(dir))
  }

  function SubTotals(dir: Dir, n: nat): nat
    requires n <= EntryCount(dir)
    decreases dir, n
  {
    if n == 0 then 0
    else SubTotals(dir, n - 1) + if dir.entries[n - 1].Sub? then Total(dir.entries[n - 1].dir) else 0
  }

  /** One printed line: a total and a path. */
  datatype Summary = Summary(total: nat, path: string)

  /** The lines of a directory: those of its sub-directories, the last listed one first, and then its own. */
  function Report(dir: Dir): seq<Summary>
    decreases dir, EntryCount(dir) + 1
  {
    SubReports(dir, EntryCount(dir)) + [Summary(Total(dir), dir.path)]
  }

  function SubReports(dir: Dir, n: nat): seq<Summary>
    requires n <= EntryCount(dir)
    decreases dir, n
  {
    if n == 0 then []
    else (if dir.entries[n - 1].Sub? then Report(dir.entries[n - 1].dir) else []) + SubReports(dir, n - 1)
  }

  // ---------- tasks ----------

  /** The linked list of tasks: enter a directory, or print its summary. */
  datatype Tasks = Done | Enter(dir: Dir, next: Tasks) | Leave(path: string, next: Tasks)

  /** The sub-directories among the first n entries as tasks, in front of `next`; the last listed one comes first. */
  function EnterTasks(dir: Dir, n: nat, next: Tasks): Tasks
    requires n <= EntryCount(dir)
  {
    if n == 0 then next
    else if dir.entries[n - 1].Sub? then Enter(dir.entries[n - 1].dir, EnterTasks(dir, n - 1, next))
    else EnterTasks(dir, n - 1, next)
  }

  /** The stack of sizes and the printed lines. */
  datatype Walk = Walk(carry: seq<nat>, printed: seq<Summary>)

  /** A summary is printed and its size folded into the one below. */
  function Fold(w: Walk, path: string): (r: Walk)
    requires |w.carry| >= 2
    ensures |r.carry| == |w.carry| - 1
  {
    var depth := |w.carry|;
    Walk(w.carry[..depth - 2] + [w.carry[depth - 2] + w.carry[depth - 1]],
         w.printed + [Summary(w.carry[depth - 1], path)])
  }

  /** What one task leaves to do. */
  function NextTasks(task: Tasks): Tasks
    requires task != Done
  {
    if task.Leave? then task.next else EnterTasks(task.dir, EntryCount(task.dir), Leave(task.dir.path, task.next))
  }

  /** What one task does to the sizes and the output. */
  function NextWalk(task: Tasks, w: Walk): Walk
    requires task.Enter? || (task.Leave? && |w.carry| >= 2)
  {
    if task.Leave? then Fold(w, task.path)
    else Walk(w.carry + [FileSizes(task.dir, EntryCount(task.dir))], w.printed)
  }

  class Du {
    /** The sizes collected for the directories on the way to the current one. */
    var carry: seq<nat>
    var printed: seq<Summary>

    constructor ()
      ensures carry == [0] && printed == []
    {
      carry, printed := [0], [];
    }

    /** `DuTask::run`.  Leaving pops a size and needs another one below it. */
    method Run(task: Tasks) returns (tasks: Tasks)
      requires task.Enter? || (task.Leave? && |carry| >= 2)
      modifies this
      ensures tasks == NextTasks(task)
      ensures Walk(carry, printed) == NextWalk(task, Walk(old(carry), old(printed)))
    {
      match task
      case Enter(dir, next) =>
        tasks := Leave(dir.path, next);
        var size := 0;
        for n := 0 to EntryCount(dir)
          invariant size == FileSizes(dir, n) && tasks == EnterTasks(dir, n, Leave(dir.path, next))
        {
          match dir.entries[n]
          case Sub(sub) => tasks := Enter(sub, tasks);
          case File(bytes) => size := size + bytes;
          case BadEntry =>
        }
        carry := carry + [size];
      case Leave(path, next) =>
        var total := carry[|carry| - 1];
        carry := carry[..|carry| - 1];
        printed := printed + [Summary(total, path)];
        var previous := |carry| - 1;
        carry := carry[..previous] + [carry[previous] + total];
        tasks := next;
    }
  }

  // ---------- what a task list does ----------

  /** Enough sizes are on the stack for every pending summary, and one more. */
  predicate Deep(tasks: Tasks, depth: nat) {
    match tasks
    case Done => depth >= 1
    case Enter(_, next) => depth >= 1 && Deep(next, depth)
    case Leave(_, next) => depth >= 2 && Deep(next, depth - 1)
  }

  function AddToTop(carry: seq<nat>, size: nat): (r: seq<nat>)
    requires carry != []
    ensures |r| == |carry|
  {
    carry[..|carry| - 1] + [carry[|carry| - 1] + size]
  }

  /** A recursive total goes to the top of the stack, a report to the output. */
  function Gain(w: Walk, total: nat, lines: seq<Summary>): (r: Walk)
    requires w.carry != []
    ensures |r.carry| == |w.carry|
  {
    Walk(AddToTop(w.carry, total), w.printed + lines)
  }

  /**
   The meaning of a task list, by recursion on the trees: entering a directory adds its recursive
   total to the top of the stack and prints its report; leaving one folds the top into the size below.
   */
  function Meaning(tasks: Tasks, w: Walk): Walk
    requires Deep(tasks, |w.carry|)
  {
    match tasks
    case Done => w
    case Enter(dir, next) => Meaning(next, Gain(w, Total(dir), Report(dir)))
    case Leave(path, next) => Meaning(next, Fold(w, path))
  }

  lemma GainNothing(w: Walk)
    requires w.carry != []
    ensures Gain(w, 0, []) == w
  {
    assert AddToTop(w.carry, 0) == w.carry;
    assert w.printed + [] == w.printed;
  }

  lemma GainTwice(w: Walk, a: nat, x: seq<Summary>, b: nat, y: seq<Summary>)
    requires w.carry != []
    ensures Gain(Gain(w, a, x), b, y) == Gain(w, a + b, x + y)
  {
    Associative(w.printed, x, y);
  }

  /** Collecting a directory's totals on a fresh size and folding it is one gain for the directory above. */
  lemma GainThenFold(w: Walk, size: nat, subs: nat, lines: seq<Summary>, path: string)
    requires w.carry != []
    ensures Fold(Gain(Walk(w.carry + [size], w.printed), subs, lines), path)
         == Gain(w, size + subs, lines + [Summary(size + subs, path)])
  {
    var depth := |w.carry| + 1;
    var carry := AddToTop(w.carry + [size], subs);
    assert carry == w.carry + [size + subs];
    assert carry[..depth - 2] == w.carry[..depth - 2];
    Associative(w.printed, lines, [Summary(size + subs, path)]);
  }

  lemma GainUnfold(dir: Dir, w: Walk)
    requires w.carry != []
    ensures var total := FileSizes(dir, EntryCount(dir)) + SubTotals(dir, EntryCount(dir));
            && Gain(w, Total(dir), Report(dir))
            == Gain(w, total, SubReports(dir, EntryCount(dir)) + [Summary(total, dir.path)])
  {
  }

  /** The gain of one more sub-directory. */
  lemma GainSub(dir: Dir, n: nat, w: Walk)
    requires 0 < n <= EntryCount(dir) && dir.entries[n - 1].Sub? && w.carry != []
    ensures var sub := dir.entries[n - 1].dir;
            && Gain(Gain(w, Total(sub), Report(sub)), SubTotals(dir, n - 1), SubReports(dir, n - 1))
            == Gain(w, SubTotals(dir, n), SubReports(dir, n))
  {
    var sub := dir.entries[n - 1].dir;
    GainTwice(w, Total(sub), Report(sub), SubTotals(dir, n - 1), SubReports(dir, n - 1));
  }

  lemma SkipEntry(dir: Dir, n: nat)
    requires 0 < n <= EntryCount(dir) && !dir.entries[n - 1].Sub?
    ensures SubTotals(dir, n) == SubTotals(dir, n - 1) && SubReports(dir, n) == SubReports(dir, n - 1)
  {
  }

  // ---------- the steps of the loop ----------

  predicate CanRun(task: Tasks, w: Walk) {
    task.Enter? || (task.Leave? && |w.carry| >= 2)
  }

  /** Running k tasks leads from one task list and walk to another. */
  ghost predicate Arrives(tasks: Tasks, w: Walk, rest: Tasks, v: Walk, k: nat)
    decreases k
  {
    if k == 0 then tasks == rest && w == v
    else CanRun(tasks, w) && Arrives(NextTasks(tasks), NextWalk(tasks, w), rest, v, k - 1)
  }

  lemma {:induction false} ArrivesThen(tasks: Tasks, w: Walk, middle: Tasks, m: Walk, j: nat,
                                       rest: Tasks, v: Walk, k: nat)
    requires Arrives(tasks, w, middle, m, j) && Arrives(middle, m, rest, v, k)
    ensures Arrives(tasks, w, rest, v, j + k)
    decreases j
  {
    if j == 0 {
    } else {
      ArrivesThen(NextTasks(tasks), NextWalk(tasks, w), middle, m, j - 1, rest, v, k);
    }
  }

  /** Directories to enter count twice, once for the summary to come. */
  function Size(dir: Dir): nat
    decreases dir, EntryCount(dir) + 1
  {
    2 + SubSizes(dir, EntryCount(dir))
  }

  function SubSizes(dir: Dir, n: nat): nat
    requires n <= EntryCount(dir)
    decreases dir, n
  {
    if n == 0 then 0
    else SubSizes(dir, n - 1) + if dir.entries[n - 1].Sub? then Size(dir.entries[n - 1].dir) else 0
  }

  function Work(tasks: Tasks): nat {
    match tasks
    case Done => 0
    case Enter(dir, next) => Size(dir) + Work(next)
    case Leave(_, next) => 1 + Work(next)
  }

  /** Entering is one step, and so is leaving. */
  lemma EnterStep(dir: Dir, rest: Tasks, w: Walk, middle: Tasks, m: Walk, k: nat)
    requires Arrives(EnterTasks(dir, EntryCount(dir), Leave(dir.path, rest)),
                     Walk(w.carry + [FileSizes(dir, EntryCount(dir))], w.printed), middle, m, k)
    ensures Arrives(Enter(dir, rest), w, middle, m, k + 1)
  {
  }

  lemma LeaveStep(path: string, rest: Tasks, w: Walk)
    requires |w.carry| >= 2
    ensures Arrives(Leave(path, rest), w, rest, Fold(w, path), 1)
  {
    assert Arrives(rest, Fold(w, path), rest, Fold(w, path), 0);
  }

  /**
   Entering a directory on top of any rest arrives at that rest, with the top of the stack increased by
   exactly the recursive total of the directory and with its report printed, in two steps for each
   directory of the tree.
   */
  lemma {:induction false} EnterReaches(dir: Dir, rest: Tasks, w: Walk)
    requires w.carry != []
    ensures Arrives(Enter(dir, rest), w, rest, Gain(w, Total(dir), Report(dir)), Size(dir))
    decreases dir, EntryCount(dir) + 1
  {
    var all := EntryCount(dir);
    var size, leave := FileSizes(dir, all), Leave(dir.path, rest);
    var inner := Walk(w.carry + [size], w.printed);
    var collected := Gain(inner, SubTotals(dir, all), SubReports(dir, all));
    EntriesReach(dir, all, leave, inner);
    LeaveStep(dir.path, rest, collected);
    ArrivesThen(EnterTasks(dir, all, leave), inner, leave, collected, SubSizes(dir, all),
                rest, Fold(collected, dir.path), 1);
    EnterStep(dir, rest, w, rest, Fold(collected, dir.path), SubSizes(dir, all) + 1);
    GainThenFold(w, size, SubTotals(dir, all), SubReports(dir, all), dir.path);
    GainUnfold(dir, w);
  }

  /** The tasks of the sub-directories add their recursive totals and print their reports. */
  lemma {:induction false} EntriesReach(dir: Dir, n: nat, rest: Tasks, w: Walk)
    requires n <= EntryCount(dir) && w.carry != []
    ensures Arrives(EnterTasks(dir, n, rest), w, rest, Gain(w, SubTotals(dir, n), SubReports(dir, n)), SubSizes(dir, n))
    decreases dir, n
  {
    if n == 0 {
      GainNothing(w);
    } else if dir.entries[n - 1].Sub? {
      var sub := dir.entries[n - 1].dir;
      EnterReaches(sub, EnterTasks(dir, n - 1, rest), w);
      EntriesReach(dir, n - 1, rest, Gain(w, Total(sub), Report(sub)));
      OneMoreSub(dir, n, rest, w);
    } else {
      EntriesReach(dir, n - 1, rest, w);
      SkipEntry(dir, n);
    }
  }

  lemma OneMoreSub(dir: Dir, n: nat, rest: Tasks, w: Walk)
    requires 0 < n <= EntryCount(dir) && dir.entries[n - 1].Sub? && w.carry != []
    requires var sub := dir.entries[n - 1].dir;
             && Arrives(Enter(sub, EnterTasks(dir, n - 1, rest)), w, EnterTasks(dir, n - 1, rest),
                        Gain(w, Total(sub), Report(sub)), Size(sub))
             && Arrives(EnterTasks(dir, n - 1, rest), Gain(w, Total(sub), Report(sub)), rest,
                        Gain(Gain(w, Total(sub), Report(sub)), SubTotals(dir, n - 1), SubReports(dir, n - 1)),
                        SubSizes(dir, n - 1))
    ensures Arrives(EnterTasks(dir, n, rest), w, rest, Gain(w, SubTotals(dir, n), SubReports(dir, n)), SubSizes(dir, n))
  {
    var sub := dir.entries[n - 1].dir;
    ArrivesThen(Enter(sub, EnterTasks(dir, n - 1, rest)), w, EnterTasks(dir, n - 1, rest),
                Gain(w, Total(sub), Report(sub)), Size(sub),
                rest, Gain(Gain(w, Total(sub), Report(sub)), SubTotals(dir, n - 1), SubReports(dir, n - 1)),
                SubSizes(dir, n - 1));
    GainSub(dir, n, w);
  }

  /** Every task list with enough sizes runs to its end, does what it means, and takes exactly its work. */
  lemma {:induction false} ListReaches(tasks: Tasks, w: Walk)
    requires Deep(tasks, |w.carry|)
    ensures Arrives(tasks, w, Done, Meaning(tasks, w), Work(tasks))
    decreases tasks
  {
    match tasks
    case Done =>
    case Enter(dir, next) =>
      var v := Gain(w, Total(dir), Report(dir));
      EnterReaches(dir, next, w);
      ListReaches(next, v);
      ArrivesThen(tasks, w, next, v, Size(dir), Done, Meaning(next, v), Work(next));
    case Leave(path, next) =>
      ListReaches(next, Fold(w, path));
  }

  /**
   Running a task list to its end leaves and prints what the list means: in particular entering a
   directory on top of any rest adds its recursive total to the top of the stack and prints its report.
   */
  method RunAll(du: Du, start: Tasks)
    requires Deep(start, |du.carry|)
    modifies du
    ensures Walk(du.carry, du.printed) == Meaning(start, Walk(old(du.carry), old(du.printed)))
  {
    var tasks := start;
    ghost var goal := Meaning(start, Walk(du.carry, du.printed));
    ghost var steps := Work(start);
    ListReaches(start, Walk(du.carry, du.printed));
    while tasks != Done
      invariant Arrives(tasks, Walk(du.carry, du.printed), Done, goal, steps)
      decreases steps
    {
      tasks := du.Run(tasks);
      steps := steps - 1;
    }
  }

  /** `du` on one input: the report of the directory, with its total left on the stack. */
  method DuOne(root: Dir) returns (printed: seq<Summary>, total: nat)
    ensures printed == Report(root) && total == Total(root)
  {
    var du := new Du();
    RunAll(du, Enter(root, Done));
    assert [] + Report(root) == Report(root);
    printed, total := du.printed, du.carry[0];
  }

  // ---------- what a report is ----------

  /** All directories of a tree, the root first and the others in listing order. */
  function Dirs(dir: Dir): seq<Dir>
    decreases dir, EntryCount(dir) + 1
  {
    [dir] + SubDirs(dir, EntryCount(dir))
  }

  function SubDirs(dir: Dir, n: nat): seq<Dir>
    requires n <= EntryCount(dir)
    decreases dir, n
  {
    if n == 0 then []
    else SubDirs(dir, n - 1) + if dir.entries[n - 1].Sub? then Dirs(dir.entries[n - 1].dir) else []
  }

  function SummaryOf(dir: Dir): Summary {
    Summary(Total(dir), dir.path)
  }

  function SummariesOf(dirs: seq<Dir>): seq<Summary> {
    seq(|dirs|, i requires 0 <= i < |dirs| => SummaryOf(dirs[i]))
  }

  lemma SummariesConcat(a: seq<Dir>, b: seq<Dir>)
    ensures SummariesOf(a + b) == SummariesOf(a) + SummariesOf(b)
  {
  }

  /** How often a line occurs. */
  ghost function Count(lines: seq<Summary>, x: Summary): nat {
    multiset(lines)[x]
  }

  lemma CountConcat(a: seq<Summary>, b: seq<Summary>, x: Summary)
    ensures Count(a + b, x) == Count(a, x) + Count(b, x)
  {
  }

  /** Every directory of the tree is printed once, with its own recursive total. */
  lemma ReportIsComplete(dir: Dir)
    ensures multiset(Report(dir)) == multiset(SummariesOf(Dirs(dir)))
  {
    forall x ensures multiset(Report(dir))[x] == multiset(SummariesOf(Dirs(dir)))[x] {
      ReportCount(dir, x);
    }
  }

  /** How often a line is that of a directory in a list. */
  ghost function DirsCount(dirs: seq<Dir>, x: Summary): nat {
    Count(SummariesOf(dirs), x)
  }

  lemma DirsCountConcat(a: seq<Dir>, b: seq<Dir>, x: Summary)
    ensures DirsCount(a + b, x) == DirsCount(a, x) + DirsCount(b, x)
  {
    SummariesConcat(a, b);
    CountConcat(SummariesOf(a), SummariesOf(b), x);
  }

  lemma {:induction false} ReportCount(dir: Dir, x: Summary)
    ensures Count(Report(dir), x) == DirsCount(Dirs(dir), x)
    decreases dir, EntryCount(dir) + 1
  {
    SubReportsCount(dir, EntryCount(dir), x);
    CountConcat(SubReports(dir, EntryCount(dir)), [SummaryOf(dir)], x);
    DirsCountConcat([dir], SubDirs(dir, EntryCount(dir)), x);
    assert SummariesOf([dir]) == [SummaryOf(dir)];
  }

  lemma {:induction false} SubReportsCount(dir: Dir, n: nat, x: Summary)
    requires n <= EntryCount(dir)
    ensures Count(SubReports(dir, n), x) == DirsCount(SubDirs(dir, n), x)
    decreases dir, n
  {
    if n == 0 {
    } else {
      SubReportsCount(dir, n - 1, x);
      EntryCounted(dir, n, x);
      OneMoreCounted(dir, n, x);
    }
  }

  lemma {:induction false} EntryCounted(dir: Dir, n: nat, x: Summary)
    requires 0 < n <= EntryCount(dir)
    ensures Count(EntryReport(dir.entries[n - 1]), x) == DirsCount(EntryDirs(dir.entries[n - 1]), x)
    decreases dir, n, 0
  {
    if dir.entries[n - 1].Sub? {
      ReportCount(dir.entries[n - 1].dir, x);
    }
  }

  function EntryReport(entry: Entry): seq<Summary> {
    if entry.Sub? then Report(entry.dir) else []
  }

  function EntryDirs(entry: Entry): seq<Dir> {
    if entry.Sub? then Dirs(entry.dir) else []
  }

  lemma OneMoreCounted(dir: Dir, n: nat, x: Summary)
    requires 0 < n <= EntryCount(dir)
    requires Count(SubReports(dir, n - 1), x) == DirsCount(SubDirs(dir, n - 1), x)
    requires Count(EntryReport(dir.entries[n - 1]), x) == DirsCount(EntryDirs(dir.entries[n - 1]), x)
    ensures Count(SubReports(dir, n), x) == DirsCount(SubDirs(dir, n), x)
  {
    OneMoreEntry(dir, n, x);
  }

  lemma OneMoreEntry(dir: Dir, n: nat, x: Summary)
    requires 0 < n <= EntryCount(dir)
    ensures Count(SubReports(dir, n), x) == Count(EntryReport(dir.entries[n - 1]), x) + Count(SubReports(dir, n - 1), x)
    ensures DirsCount(SubDirs(dir, n), x)
         == DirsCount(SubDirs(dir, n - 1), x) + DirsCount(EntryDirs(dir.entries[n - 1]), x)
  {
    CountConcat(EntryReport(dir.entries[n - 1]), SubReports(dir, n - 1), x);
    DirsCountConcat(SubDirs(dir, n - 1), EntryDirs(dir.entries[n - 1]), x);
  }

  /** Walking a tree takes two steps for each of its directories. */
  lemma {:induction false} TwoStepsEach(dir: Dir)
    ensures Size(dir) == 2 * |Dirs(dir)|
    decreases dir, EntryCount(dir) + 1
  {
    SubStepsEach(dir, EntryCount(dir));
  }

  lemma {:induction false} SubStepsEach(dir: Dir, n: nat)
    requires n <= EntryCount(dir)
    ensures SubSizes(dir, n) == 2 * |SubDirs(dir, n)|
    decreases dir, n
  {
    if n == 0 {
    } else {
      SubStepsEach(dir, n - 1);
      if dir.entries[n - 1].Sub? {
        TwoStepsEach(dir.entries[n - 1].dir);
      }
    }
  }

  /**
   The report of a sub-directory is printed, as one block, before the line of the directory itself,
   which comes last.
   */
  lemma {:induction false} SubReportsFirst(dir: Dir, n: nat, k: nat) returns (before: seq<Summary>, after: seq<Summary>)
    requires k < n <= EntryCount(dir) && dir.entries[k].Sub?
    ensures SubReports(dir, n) == before + Report(dir.entries[k].dir) + after
    decreases n
  {
    if n - 1 == k {
      before, after := [], SubReports(dir, n - 1);
      assert [] + Report(dir.entries[k].dir) == Report(dir.entries[k].dir);
    } else {
      before, after := SubReportsFirst(dir, n - 1, k);
      var first := if dir.entries[n - 1].Sub? then Report(dir.entries[n - 1].dir) else [];
      Associative(first, before, Report(dir.entries[k].dir));
      Associative(first, before + Report(dir.entries[k].dir), after);
      before := first + before;
    }
  }

  lemma ChildrenBeforeParent(dir: Dir, k: nat) returns (before: seq<Summary>, between: seq<Summary>)
    requires k < EntryCount(dir) && dir.entries[k].Sub?
    ensures Report(dir) == before + Report(dir.entries[k].dir) + between + [SummaryOf(dir)]
  {
    before, between := SubReportsFirst(dir, EntryCount(dir), k);
  }

  /** Of two sub-directories of a directory the one listed later is printed first. */
  lemma {:induction false} SubReportsOrder(dir: Dir, n: nat, i: nat, j: nat)
    returns (before: seq<Summary>, between: seq<Summary>, after: seq<Summary>)
    requires i < j < n <= EntryCount(dir) && dir.entries[i].Sub? && dir.entries[j].Sub?
    ensures SubReports(dir, n)
         == before + Report(dir.entries[j].dir) + between + Report(dir.entries[i].dir) + after
    decreases n
  {
    var lower := Report(dir.entries[i].dir);
    var upper := Report(dir.entries[j].dir);
    if n - 1 == j {
      before := [];
      between, after := SubReportsFirst(dir, n - 1, i);
      assert [] + upper == upper;
      Associative(upper, between, lower);
      Associative(upper, between + lower, after);
    } else {
      before, between, after := SubReportsOrder(dir, n - 1, i, j);
      MoreInFront(EntryReport(dir.entries[n - 1]), before, upper, between, lower, after);
      before := EntryReport(dir.entries[n - 1]) + before;
    }
  }

  lemma MoreInFront(first: seq<Summary>, a: seq<Summary>, b: seq<Summary>, c: seq<Summary>,
                    d: seq<Summary>, e: seq<Summary>)
    ensures first + (a + b + c + d + e) == first + a + b + c + d + e
  {
  }

  lemma LaterSiblingFirst(dir: Dir, i: nat, j: nat)
    returns (before: seq<Summary>, between: seq<Summary>, after: seq<Summary>)
    requires i < j < EntryCount(dir) && dir.entries[i].Sub? && dir.entries[j].Sub?
    ensures Report(dir)
         == before + Report(dir.entries[j].dir) + between + Report(dir.entries[i].dir) + after
  {
    before, between, after := SubReportsOrder(dir, EntryCount(dir), i, j);
    after := after + [SummaryOf(dir)];
  }

  // ---------- what a total is ----------

  /** The sizes of all files anywhere in a tree. */
  function AllFiles(dir: Dir): seq<nat>
    decreases dir, EntryCount(dir) + 1
  {
    FilesFrom(dir, 0)
  }

  function FilesFrom(dir: Dir, n: nat): seq<nat>
    requires n <= EntryCount(dir)
    decreases dir, EntryCount(dir) - n
  {
    if n == EntryCount(dir) then [] else
      (match dir.entries[n]
       case File(size) => [size]
       case Sub(sub) => AllFiles(sub)
       case BadEntry => []) + FilesFrom(dir, n + 1)
  }

  function SumOf(sizes: seq<nat>): nat {
    if sizes == [] then 0 else sizes[0] + SumOf(sizes[1..])
  }

  lemma {:induction false} SumOfConcat(a: seq<nat>, b: seq<nat>)
    ensures SumOf(a + b) == SumOf(a) + SumOf(b)
  {
    if a == [] {
      assert a + b == b;
    } else {
      assert (a + b)[1..] == a[1..] + b;
      SumOfConcat(a[1..], b);
    }
  }

  lemma SumOfOne(size: nat)
    ensures SumOf([size]) == size
  {
    assert [size][1..] == [];
  }

  /** What an entry adds to the total of its directory. */
  function EntrySize(entry: Entry): nat {
    match entry
    case File(size) => size
    case Sub(sub) => Total(sub)
    case BadEntry => 0
  }

  /** What the first n entries add. */
  function SizeOfFirst(dir: Dir, n: nat): nat
    requires n <= EntryCount(dir)
  {
    FileSizes(dir, n) + SubTotals(dir, n)
  }

  lemma SizeOfNext(dir: Dir, n: nat)
    requires n < EntryCount(dir)
    ensures SizeOfFirst(dir, n + 1) == SizeOfFirst(dir, n) + EntrySize(dir.entries[n])
  {
  }

  /** The total of a directory is the sum of the sizes of all files in the tree below it. */
  lemma {:induction false} TotalIsSum(dir: Dir)
    ensures Total(dir) == SumOf(AllFiles(dir))
    decreases dir, EntryCount(dir) + 1
  {
    FilesFromSum(dir, 0);
  }

  lemma {:induction false} FilesFromSum(dir: Dir, n: nat)
    requires n <= EntryCount(dir)
    ensures SizeOfFirst(dir, n) + SumOf(FilesFrom(dir, n)) == Total(dir)
    decreases dir, EntryCount(dir) - n
  {
    if n == EntryCount(dir) {
    } else {
      var entry := dir.entries[n];
      FilesFromSum(dir, n + 1);
      SizeOfNext(dir, n);
      match entry {
        case File(size) =>
          SumOfOne(size);
          SumOfConcat([size], FilesFrom(dir, n + 1));
        case Sub(sub) =>
          TotalIsSum(sub);
          SumOfConcat(AllFiles(sub), FilesFrom(dir, n + 1));
        case BadEntry =>
          assert [] + FilesFrom(dir, n + 1) == FilesFrom(dir, n + 1);
      }
    }
  }

  /** The path of entry numbers leads to a directory, and i is a place among its entries. */
  predicate LeadsTo(dir: Dir, path: seq<nat>, i: nat)
    decreases |path|
  {
    && dir.Dir?
    && if path == [] then i <= |dir.entries|
       else path[0] < |dir.entries| && dir.entries[path[0]].Sub? && LeadsTo(dir.entries[path[0]].dir, path[1..], i)
  }

  /** The tree with one more file at that place. */
  function WithFile(dir: Dir, path: seq<nat>, i: nat, size: nat): Dir
    requires LeadsTo(dir, path, i)
    decreases |path|
  {
    if path == [] then Dir(dir.path, dir.entries[..i] + [File(size)] + dir.entries[i..])
    else
      Dir(dir.path,
          dir.entries[..path[0]] + [Sub(WithFile(dir.entries[path[0]].dir, path[1..], i, size))]
          + dir.entries[path[0] + 1..])
  }

  /** The total depends on the entries one by one. */
  function SizesOf(entries: seq<Entry>): (r: seq<nat>)
    ensures |r| == |entries|
  {
    seq(|entries|, n requires 0 <= n < |entries| => EntrySize(entries[n]))
  }

  lemma SizesConcat(a: seq<Entry>, b: seq<Entry>)
    ensures SumOf(SizesOf(a + b)) == SumOf(SizesOf(a)) + SumOf(SizesOf(b))
  {
    assert SizesOf(a + b) == SizesOf(a) + SizesOf(b);
    SumOfConcat(SizesOf(a), SizesOf(b));
  }

  lemma SizesOne(entry: Entry)
    ensures SumOf(SizesOf([entry])) == EntrySize(entry)
  {
    assert SizesOf([entry]) == [EntrySize(entry)];
    SumOfOne(EntrySize(entry));
  }

  lemma {:induction false} SizesOfFirst(dir: Dir, n: nat)
    requires dir.Dir? && n <= |dir.entries|
    ensures SizeOfFirst(dir, n) == SumOf(SizesOf(dir.entries[..n]))
  {
    if n == 0 {
      assert SizesOf(dir.entries[..0]) == [];
    } else {
      SizesOfFirst(dir, n - 1);
      SizeOfNext(dir, n - 1);
      TakeSnoc(dir.entries, n - 1);
      SizesConcat(dir.entries[..n - 1], [dir.entries[n - 1]]);
      SizesOne(dir.entries[n - 1]);
    }
  }

  lemma TotalOfParts(path: string, a: seq<Entry>, entry: Entry, b: seq<Entry>)
    ensures Total(Dir(path, a + [entry] + b)) == SumOf(SizesOf(a)) + EntrySize(entry) + SumOf(SizesOf(b))
  {
    var dir := Dir(path, a + [entry] + b);
    assert dir.entries[..|dir.entries|] == dir.entries;
    SizesOfFirst(dir, |dir.entries|);
    SizesConcat(a + [entry], b);
    SizesConcat(a, [entry]);
    SizesOne(entry);
  }

  lemma TotalOfTwo(dir: Dir, i: nat)
    requires dir.Dir? && i <= |dir.entries|
    ensures Total(dir) == SumOf(SizesOf(dir.entries[..i])) + SumOf(SizesOf(dir.entries[i..]))
  {
    assert dir.entries[..|dir.entries|] == dir.entries == dir.entries[..i] + dir.entries[i..];
    SizesOfFirst(dir, |dir.entries|);
    SizesConcat(dir.entries[..i], dir.entries[i..]);
  }

  /** One more file anywhere in the tree raises the total by exactly its size. */
  lemma {:induction false} FileAddsItsSize(dir: Dir, path: seq<nat>, i: nat, size: nat)
    requires LeadsTo(dir, path, i)
    ensures Total(WithFile(dir, path, i, size)) == Total(dir) + size
    decreases |path|
  {
    if path == [] {
      TotalOfParts(dir.path, dir.entries[..i], File(size), dir.entries[i..]);
      TotalOfTwo(dir, i);
    } else {
      var k := path[0];
      var sub := dir.entries[k].dir;
      FileAddsItsSize(sub, path[1..], i, size);
      TotalOfParts(dir.path, dir.entries[..k], Sub(WithFile(sub, path[1..], i, size)), dir.entries[k + 1..]);
      TotalOfParts(dir.path, dir.entries[..k], Sub(sub), dir.entries[k + 1..]);
      assert dir.entries == dir.entries[..k] + [Sub(sub)] + dir.entries[k + 1..];
    }
  }

  // ---------- all inputs ----------

  function ReportAll(roots: seq<Dir>): seq<Summary> {
    if roots == [] then [] else ReportAll(roots[1..]) + Report(roots[0])
  }

  lemma {:induction false} ReportAllSnoc(roots: seq<Dir>, root: Dir)
    ensures ReportAll(roots + [root]) == Report(root) + ReportAll(roots)
  {
    if roots == [] {
      assert [] + [root] == [root];
      assert [] + Report(root) == Report(root) + [];
      assert [root][1..] == [];
    } else {
      assert (roots + [root])[1..] == roots[1..] + [root];
      ReportAllSnoc(roots[1..], root);
      Associative(Report(root), ReportAll(roots[1..]), Report(roots[0]));
    }
  }

  /** `du`: inputs are popped from the end, each with a stack of its own. */
  method DuAll(inputs: seq<Dir>) returns (printed: seq<Summary>)
    ensures printed == ReportAll(inputs)
  {
    printed := [];
    var left := inputs;
    while left != []
      invariant ReportAll(inputs) == printed + ReportAll(left)
    {
      var input := left[|left| - 1];
      ReportAllSnoc(left[..|left| - 1], input);
      assert left == left[..|left| - 1] + [input];
      left := left[..|left| - 1];
      var lines, _ := DuOne(input);
      Associative(printed, lines, ReportAll(left));
      printed := printed + lines;
    }
  }
}
