/** `LoadData` in recovery: from the text of the log to one entry per transaction id. */
module LogParser {
  import opened WriteAheadLog

  datatype LogData = LogData(state: State, names: seq<string>)
  type LogMap = map<string, LogData>

  predicate Absent(s: string, c: char, from: nat, to: nat)
    requires to <= |s|
  {
    forall k :: from <= k < to ==> s[k] != c
  }

  /** `std::string::find` of one character, -1 for npos. */
  function Find(s: string, c: char, from: nat): (i: int)
    requires from <= |s|
    ensures i == -1 || from <= i < |s|
    ensures i == -1 ==> Absent(s, c, from, |s|)
    ensures i != -1 ==> s[i] == c && Absent(s, c, from, i)
    decreases |s| - from
  {
    if from == |s| then -1 else if s[from] == c then from else Find(s, c, from + 1)
  }

  /** `std::string::substr`; a negative count converts to a huge unsigned one. */
  function Substr(s: string, pos: nat, n: int): string
    requires pos <= |s|
  {
    if n < 0 || pos + n > |s| then s[pos..] else s[pos..pos + n]
  }

  predicate IsState(val: string) {
    val == STATE_START || val == STATE_ABORT || val == STATE_RPC_INIT || val == STATE_COMMIT
  }

  function GetStateOfCurrentServer(val: string): State
    requires IsState(val)
  {
    if val == STATE_START then START
    else if val == STATE_ABORT then ABORT
    else if val == STATE_RPC_INIT then RPC_INIT
    else COMMIT
  }

  datatype Entry = StateEntry(id: string, state: State) | MoveEntry(id: string, first: string, second: string)

  /** The pieces of a line between delimiters, from a position on. */
  function Fields(line: string, from: nat := 0): (f: seq<string>)
    requires from <= |line|
    ensures f != []
    decreases |line| - from
  {
    var i := Find(line, ':', from);
    if i == -1 then [line[from..]] else [line[from..i]] + Fields(line, i + 1)
  }

  /** What the parser takes from any line at all, in terms of its fields. */
  function EntryOf(line: string): Entry {
    var f := Fields(line);
    var val := if |f| == 1 then f[0] else f[1];
    if IsState(val) then StateEntry(f[0], GetStateOfCurrentServer(val)) else MoveOf(line, f)
  }

  function MoveOf(line: string, f: seq<string>): Entry
    requires f != []
  {
    if |f| == 1 then MoveEntry(f[0], line, line)
    else if |f| == 2 then MoveEntry(f[0], f[0], f[1])
    else if |f| == 3 then MoveEntry(f[0], f[2], Substr(line, 0, |f[0]| - 2))
    else if |f| == 4 then MoveEntry(f[0], f[2], f[3])
    else MoveEntry(f[0], f[2], LastNameOf(line, f))
  }

  /** A fifth field makes the parser drop the last two characters of the fourth. */
  function LastNameOf(line: string, f: seq<string>): string
    requires |f| > 4
  {
    var start := |f[0]| + |f[1]| + |f[2]| + 3;
    if |f[3]| >= 2 then f[3][..|f[3]| - 2]
    else if start <= |line| then line[start..] else ""
  }

  /** A new map entry is value-initialised, so its state is the zero of the enumeration. */
  function Absorb(m: LogMap, e: Entry): LogMap {
    var d := if e.id in m then m[e.id] else LogData(START, []);
    match e
    case StateEntry(id, state) => m[id := d.(state := state)]
    case MoveEntry(id, first, second) => m[id := d.(names := d.names + [first, second])]
  }

  function LoadMore(m: LogMap, lines: seq<string>): LogMap {
    if lines == [] then m
    else Absorb(LoadMore(m, lines[..|lines| - 1]), EntryOf(lines[|lines| - 1]))
  }

  /** The lines that `getline` yields, from a position on. */
  function TextLines(text: string, from: nat := 0): seq<string>
    requires from <= |text|
    decreases |text| - from
  {
    if from == |text| then []
    else
      var i := Find(text, '\n', from);
      if i == -1 then [text[from..]] else [text[from..i]] + TextLines(text, i + 1)
  }

  lemma {:induction false} FirstOccurrence(s: string, c: char, from: nat, i: nat)
    requires from <= i < |s| && s[i] == c && Absent(s, c, from, i)
    ensures Find(s, c, from) == i
  {
  }

  lemma {:induction false} NextField(line: string, from: nat, i: int)
    requires from <= |line| && i == Find(line, ':', from)
    ensures i == -1 ==> Fields(line, from) == [line[from..]]
    ensures i != -1 ==> Fields(line, from) == [line[from..i]] + Fields(line, i + 1)
    ensures |Fields(line, from)| == 1 <==> i == -1
  {
  }

  lemma {:induction false} NamesOfLine(line: string, i: int, j: int, k: int, l: int)
    requires i == Find(line, ':', 0) && j == Find(line, ':', i + 1)
    requires k == Find(line, ':', j + 1) && l == Find(line, ':', k + 1)
    ensures MoveOf(line, Fields(line))
            == MoveEntry(Substr(line, 0, i), Substr(line, j + 1, k - j - 1), Substr(line, k + 1, l - (k + 1) - 2))
  {
    hide *;
    if i == -1 {
      OneField(line, i, j, k, l);
    } else if j == -1 {
      TwoFields(line, i, j, k, l);
    } else if k == -1 {
      ThreeFields(line, i, j, k, l);
    } else {
      MoreFields(line, i, j, k, l);
    }
  }

  lemma {:induction false} OneField(line: string, i: int, j: int, k: int, l: int)
    requires i == Find(line, ':', 0) && j == Find(line, ':', i + 1)
    requires k == Find(line, ':', j + 1) && l == Find(line, ':', k + 1)
    requires i == -1
    ensures MoveOf(line, Fields(line))
            == MoveEntry(Substr(line, 0, i), Substr(line, j + 1, k - j - 1), Substr(line, k + 1, l - (k + 1) - 2))
  {
    NextField(line, 0, i);
    hide Find, Fields;
    assert line[0..] == line;
  }

  lemma {:induction false} TwoFields(line: string, i: int, j: int, k: int, l: int)
    requires i == Find(line, ':', 0) && j == Find(line, ':', i + 1)
    requires k == Find(line, ':', j + 1) && l == Find(line, ':', k + 1)
    requires i != -1 && j == -1
    ensures MoveOf(line, Fields(line))
            == MoveEntry(Substr(line, 0, i), Substr(line, j + 1, k - j - 1), Substr(line, k + 1, l - (k + 1) - 2))
  {
    NextField(line, 0, i);
    NextField(line, i + 1, j);
    hide Find, Fields;
  }

  lemma {:induction false} ThreeFields(line: string, i: int, j: int, k: int, l: int)
    requires i == Find(line, ':', 0) && j == Find(line, ':', i + 1)
    requires k == Find(line, ':', j + 1) && l == Find(line, ':', k + 1)
    requires i != -1 && j != -1 && k == -1
    ensures MoveOf(line, Fields(line))
            == MoveEntry(Substr(line, 0, i), Substr(line, j + 1, k - j - 1), Substr(line, k + 1, l - (k + 1) - 2))
  {
    NextField(line, 0, i);
    NextField(line, i + 1, j);
    NextField(line, j + 1, k);
    hide Find, Fields;
    assert Fields(line) == [line[0..i], line[i + 1..j], line[j + 1..]];
  }

  lemma {:induction false} MoreFields(line: string, i: int, j: int, k: int, l: int)
    requires i == Find(line, ':', 0) && j == Find(line, ':', i + 1)
    requires k == Find(line, ':', j + 1) && l == Find(line, ':', k + 1)
    requires i != -1 && j != -1 && k != -1
    ensures MoveOf(line, Fields(line))
            == MoveEntry(Substr(line, 0, i), Substr(line, j + 1, k - j - 1), Substr(line, k + 1, l - (k + 1) - 2))
  {
    hide *;
    NextField(line, 0, i);
    NextField(line, i + 1, j);
    NextField(line, j + 1, k);
    FirstField(line, k + 1, l);
    ThreeBefore(line[0..i], line[i + 1..j], line[j + 1..k], Fields(line, k + 1));
    FourthName(line, i, j, k, l, Fields(line), Fields(line, k + 1));
  }

  lemma {:induction false} FirstField(line: string, from: nat, i: int)
    requires from <= |line| && i == Find(line, ':', from)
    ensures Fields(line, from)[0] == (if i == -1 then line[from..] else line[from..i])
    ensures |Fields(line, from)| == 1 <==> i == -1
  {
    NextField(line, from, i);
  }

  lemma {:induction false} ThreeBefore(a: string, b: string, c: string, f: seq<string>)
    ensures [a] + ([b] + ([c] + f)) == [a, b, c] + f
  {
  }

  lemma {:induction false} FourthName(line: string, i: nat, j: nat, k: nat, l: int, all: seq<string>, rest: seq<string>)
    requires i < j < k < |line| && (l == -1 || k < l < |line|)
    requires all == [line[0..i], line[i + 1..j], line[j + 1..k]] + rest
    requires rest != [] && rest[0] == (if l == -1 then line[k + 1..] else line[k + 1..l])
    requires |rest| == 1 <==> l == -1
    ensures MoveOf(line, all)
            == MoveEntry(Substr(line, 0, i), Substr(line, j + 1, k - j - 1), Substr(line, k + 1, l - (k + 1) - 2))
  {
    assert all[3] == rest[0];
    if l != -1 {
      assert l - k >= 3 ==> line[k + 1..l][..l - k - 3] == line[k + 1..l - 2];
    }
  }

  /** Index arithmetic of `LoadData` on one line; no `substr` position is ever out of range. */
  method ParseLine(line: string) returns (e: Entry)
    ensures e == EntryOf(line)
  {
    hide Find;
    var idStart := 0;
    var idEnd := Find(line, ':', idStart);
    var id := Substr(line, idStart, idEnd);
    var valStart := idEnd + 1;
    var valEnd := Find(line, ':', valStart);
    var val := Substr(line, valStart, valEnd - idEnd - 1);
    assert val == if |Fields(line)| == 1 then Fields(line)[0] else Fields(line)[1];

    if IsState(val) {
      e := StateEntry(id, GetStateOfCurrentServer(val));
    } else {
      var fileStart := valEnd + 1;
      var fileEnd := Find(line, ':', fileStart);
      var first := Substr(line, fileStart, fileEnd - valEnd - 1);
      ghost var firstEnd := fileEnd;

      fileStart := fileEnd + 1;
      fileEnd := Find(line, ':', fileStart);
      var second := Substr(line, fileStart, fileEnd - fileStart - 2);
      NamesOfLine(line, idEnd, valEnd, firstEnd, fileEnd);
      e := MoveEntry(id, first, second);
    }
  }

  lemma {:induction false} OneMoreLine(text: string, pos: nat, done: seq<string>, line: string, next: nat)
    requires pos < |text|
    requires var i := Find(text, '\n', pos);
             line == (if i == -1 then text[pos..] else text[pos..i]) && next == if i == -1 then |text| else i + 1
    ensures done + TextLines(text, pos) == (done + [line]) + TextLines(text, next)
    ensures LoadMore(map[], done + [line]) == Absorb(LoadMore(map[], done), EntryOf(line))
  {
    hide Find, EntryOf;
    assert TextLines(text, pos) == [line] + TextLines(text, next);
    assert done + ([line] + TextLines(text, next)) == (done + [line]) + TextLines(text, next);
    assert (done + [line])[..|done|] == done;
  }

  method AbsorbInto(logMap: LogMap, e: Entry) returns (updated: LogMap)
    ensures updated == Absorb(logMap, e)
  {
    updated := logMap;
    match e {
      case StateEntry(id, state) =>
        if id !in updated {
          updated := updated[id := LogData(state, [])];
        } else {
          updated := updated[id := updated[id].(state := state)];
        }
      case MoveEntry(id, first, second) =>
        if id !in updated {
          updated := updated[id := LogData(START, [])];
        }
        updated := updated[id := updated[id].(names := updated[id].names + [first, second])];
    }
  }

  method LoadData(text: string) returns (logMap: LogMap)
    ensures logMap == LoadMore(map[], TextLines(text))
  {
    logMap := map[];
    var pos := 0;
    ghost var done: seq<string> := [];
    while pos < |text|
      invariant pos <= |text|
      invariant logMap == LoadMore(map[], done)
      invariant done + TextLines(text, pos) == TextLines(text)
    {
      var newline := Find(text, '\n', pos);
      var line := if newline == -1 then text[pos..] else text[pos..newline];
      var next := if newline == -1 then |text| else newline + 1;
      var e := ParseLine(line);
      OneMoreLine(text, pos, done, line, next);
      logMap := AbsorbInto(logMap, e);
      done := done + [line];
      pos := next;
    }
    assert done + [] == done;
  }

  // ----- The log that was written -----

  function Flatten(movs: seq<(string, string)>): (names: seq<string>)
    ensures |names| == 2 * |movs|
    ensures forall i :: 0 <= i < |movs| ==> names[2 * i] == movs[i].0 && names[2 * i + 1] == movs[i].1
  {
    if movs == [] then [] else Flatten(movs[..|movs| - 1]) + [movs[|movs| - 1].0, movs[|movs| - 1].1]
  }

  function StateIn(r: Record): State {
    match r
    case Start(_, _) => START
    case Abort(_) => ABORT
    case ReplInit(_) => RPC_INIT
    case Commit(_) => COMMIT
    case Pending(_) => PENDING_REPLICATION
  }

  /** The last of the four recognised states; a pending record does not count. */
  function StateOf(rs: seq<Record>, id: string): State {
    if rs == [] then START
    else
      var r := rs[|rs| - 1];
      if r.id == id && !r.Pending? then StateIn(r) else StateOf(rs[..|rs| - 1], id)
  }

  /** The file names a record leads to: a pending record is read as a pair of its own. */
  function NamesIn(r: Record): seq<string> {
    match r
    case Start(_, movs) => Flatten(movs)
    case Pending(id) => [id, STATE_PENDING_REPLICATION]
    case _ => []
  }

  function NamesOf(rs: seq<Record>, id: string): seq<string> {
    if rs == [] then []
    else NamesOf(rs[..|rs| - 1], id) + if rs[|rs| - 1].id == id then NamesIn(rs[|rs| - 1]) else []
  }

  function Ids(rs: seq<Record>): set<string> {
    set r | r in rs :: r.id
  }

  function Summary(rs: seq<Record>): LogMap {
    map id | id in Ids(rs) :: LogData(StateOf(rs, id), NamesOf(rs, id))
  }

  predicate EndsWith(t: string, p: nat, s: string) {
    |t| == p + |s| && forall k {:trigger s[k]} {:trigger t[p + k]} :: 0 <= k < |s| ==> t[p + k] == s[k]
  }

  lemma {:induction false} FindShift(t: string, p: nat, s: string, c: char, from: nat)
    requires EndsWith(t, p, s) && from <= |s|
    ensures var i := Find(s, c, from);
            Find(t, c, p + from) == if i == -1 then -1 else p + i
    decreases |s| - from
  {
    if from < |s| {
      assert t[p + from] == s[from];
      if s[from] != c {
        FindShift(t, p, s, c, from + 1);
      }
    }
  }

  lemma {:induction false} SliceShift(t: string, p: nat, s: string, i: nat, j: nat)
    requires EndsWith(t, p, s) && i <= j <= |s|
    ensures t[p + i..p + j] == s[i..j]
    ensures t[p + i..] == s[i..]
  {
  }

  lemma {:induction false} FieldsShift(t: string, p: nat, s: string, from: nat)
    requires |t| == p + |s| && EndsWith(t, p, s) && from <= |s|
    ensures Fields(t, p + from) == Fields(s, from)
    decreases |s| - from
  {
    hide Find, EndsWith, Fields;
    var i := Find(s, ':', from);
    FindShift(t, p, s, ':', from);
    NextField(s, from, i);
    NextField(t, p + from, if i == -1 then -1 else p + i);
    SliceShift(t, p, s, from, if i == -1 then from else i);
    if i != -1 {
      FieldsShift(t, p, s, i + 1);
      assert p + (i + 1) == p + i + 1;
    }
  }

  lemma {:induction false} FieldsOfJoin(a: string, b: string)
    requires ':' !in a
    ensures Fields(a + ":" + b) == [a] + Fields(b)
  {
    var s := a + ":" + b;
    FirstOccurrence(s, ':', 0, |a|);
    assert s[0..|a|] == a;
    FieldsShift(s, |a| + 1, b, 0);
  }

  lemma {:induction false} FieldsOfOne(a: string)
    requires ':' !in a
    ensures Fields(a) == [a]
  {
  }

  lemma {:induction false} StateNamesAreClean()
    ensures Clean(STATE_START) && Clean(STATE_ABORT) && Clean(STATE_RPC_INIT) && Clean(STATE_COMMIT)
    ensures Clean(STATE_PENDING_REPLICATION) && Clean(MV)
    ensures !IsState(STATE_PENDING_REPLICATION) && !IsState(MV)
    ensures GetStateOfCurrentServer(STATE_START) == START && GetStateOfCurrentServer(STATE_ABORT) == ABORT
    ensures GetStateOfCurrentServer(STATE_RPC_INIT) == RPC_INIT && GetStateOfCurrentServer(STATE_COMMIT) == COMMIT
  {
    assert |STATE_PENDING_REPLICATION| == 19 && |MV| == 2;
    assert STATE_START[0] == 'T' && STATE_ABORT[0] == 'A' && STATE_RPC_INIT[0] == 'R' && STATE_COMMIT[0] == 'C';
  }

  lemma {:induction false} StateLineFields(id: string, state: string)
    requires Clean(id) && Clean(state)
    ensures Fields(StateLine(id, state)) == [id, state]
  {
    FieldsOfOne(state);
    FieldsOfJoin(id, state);
  }

  lemma {:induction false} StateLineEntry(id: string, state: string)
    requires Clean(id) && Clean(state) && IsState(state)
    ensures EntryOf(StateLine(id, state)) == StateEntry(id, GetStateOfCurrentServer(state))
  {
    StateLineFields(id, state);
  }

  lemma {:induction false} PendingLineEntry(id: string)
    requires Clean(id)
    ensures EntryOf(StateLine(id, STATE_PENDING_REPLICATION)) == MoveEntry(id, id, STATE_PENDING_REPLICATION)
  {
    StateNamesAreClean();
    StateLineFields(id, STATE_PENDING_REPLICATION);
  }

  lemma {:induction false} Associative(a: string, b: string, c: string)
    ensures a + b + c == a + (b + c)
  {
  }

  lemma {:induction false} MoveLineFields(id: string, mv: string, first: string, second: string)
    requires Clean(id) && Clean(mv) && Clean(first) && Clean(second)
    ensures Fields(id + ":" + mv + ":" + first + ":" + second) == [id, mv, first, second]
  {
    hide Find, Fields;
    var names := first + ":" + second;
    FieldsOfOne(second);
    FieldsOfJoin(first, second);
    FieldsOfJoin(mv, names);
    FieldsOfJoin(id, mv + ":" + names);
    var left := id + ":" + mv + ":";
    Associative(left, first, ":");
    Associative(left, first + ":", second);
    Associative(id + ":", mv, ":");
    Associative(id + ":", mv + ":", names);
  }

  lemma {:induction false} MoveLineEntry(id: string, mov: (string, string))
    requires Clean(id) && Clean(mov.0) && Clean(mov.1)
    ensures EntryOf(MoveLine(id, mov)) == MoveEntry(id, mov.0, mov.1)
  {
    StateNamesAreClean();
    MoveLineFields(id, MV, mov.0, mov.1);
  }

  // ----- Any line at all -----

  /** The words that are read as states. */
  ghost function Words(): map<string, State> {
    map["TXN_START" := START, "ABORT" := ABORT, "REPL_INIT" := RPC_INIT, "COMMIT" := COMMIT]
  }

  lemma {:induction false} WordsAreStates(val: string)
    ensures IsState(val) <==> val in Words()
    ensures val in Words() ==> GetStateOfCurrentServer(val) == Words()[val]
  {
    StateNamesAreClean();
    assert |STATE_START| == 9 && |STATE_ABORT| == 5 && |STATE_RPC_INIT| == 9 && |STATE_COMMIT| == 6;
  }

  lemma {:induction false} EntryFrom(line: string, f: seq<string>)
    requires Fields(line) == f
    ensures var val := if |f| == 1 then f[0] else f[1];
            EntryOf(line) == if val in Words() then StateEntry(f[0], Words()[val]) else MoveOf(line, f)
  {
    WordsAreStates(if |f| == 1 then f[0] else f[1]);
    hide IsState, GetStateOfCurrentServer;
  }

  /** A line with one field counts as both of its names; with two, the first name is the id. */
  lemma {:induction false} ShortLineEntry(a: string, b: string)
    requires ':' !in a && ':' !in b
    ensures EntryOf(a) == if a in Words() then StateEntry(a, Words()[a]) else MoveEntry(a, a, a)
    ensures EntryOf(a + ":" + b) == if b in Words() then StateEntry(a, Words()[b]) else MoveEntry(a, a, b)
  {
    FieldsOfOne(a);
    FieldsOfOne(b);
    FieldsOfJoin(a, b);
    EntryFrom(a, [a]);
    EntryFrom(a + ":" + b, [a, b]);
    hide Fields, EntryOf;
  }

  /** With three fields the second name is the line up to two characters before the end of the id, or all of it when
      the id has fewer than two. */
  lemma {:induction false} ThreeFieldEntry(a: string, b: string, c: string)
    requires ':' !in a && ':' !in b && ':' !in c
    ensures EntryOf(a + ":" + (b + ":" + c))
            == if b in Words() then StateEntry(a, Words()[b])
               else MoveEntry(a, c, if |a| >= 2 then a[..|a| - 2] else a + ":" + (b + ":" + c))
  {
    var line := a + ":" + (b + ":" + c);
    FieldsOfOne(c);
    FieldsOfJoin(b, c);
    FieldsOfJoin(a, b + ":" + c);
    EntryFrom(line, [a, b, c]);
    ThreeFieldMove(line, a, b, c);
    hide Fields, EntryOf, MoveOf, Words;
  }

  lemma {:induction false} ThreeFieldMove(line: string, a: string, b: string, c: string)
    requires |a| <= |line| && a == line[..|a|]
    ensures MoveOf(line, [a, b, c]) == MoveEntry(a, c, if |a| >= 2 then a[..|a| - 2] else line)
  {
    assert line[0..] == line;
    assert |a| >= 2 ==> line[0..|a| - 2] == a[..|a| - 2];
  }

  /** With four fields the names are the last two; anything behind a fifth delimiter costs the second name its last
      two characters, or, when it has fewer than two, joins it. */
  lemma {:induction false} LongLineEntry(a: string, b: string, c: string, d: string, rest: string)
    requires ':' !in a && ':' !in b && ':' !in c && ':' !in d
    ensures EntryOf(a + ":" + (b + ":" + (c + ":" + d))) == if b in Words() then StateEntry(a, Words()[b]) else MoveEntry(a, c, d)
    ensures EntryOf(a + ":" + (b + ":" + (c + ":" + (d + ":" + rest))))
            == if b in Words() then StateEntry(a, Words()[b])
               else MoveEntry(a, c, if |d| >= 2 then d[..|d| - 2] else d + ":" + rest)
  {
    FieldsOfOne(d);
    FourFields(a, b, c, d);
    FieldsOfJoin(d, rest);
    FourFields(a, b, c, d + ":" + rest);
    LongEntryFrom(a, b, c, d, d, []);
    LongEntryFrom(a, b, c, d, d + ":" + rest, Fields(rest));
    hide Fields, EntryOf;
  }

  lemma {:induction false} FourFields(a: string, b: string, c: string, tail: string)
    requires ':' !in a && ':' !in b && ':' !in c
    ensures Fields(a + ":" + (b + ":" + (c + ":" + tail))) == [a, b, c] + Fields(tail)
  {
    hide Fields;
    FieldsOfJoin(c, tail);
    FieldsOfJoin(b, c + ":" + tail);
    FieldsOfJoin(a, b + ":" + (c + ":" + tail));
  }

  lemma {:induction false} AfterThree(a: string, b: string, c: string, tail: string)
    ensures var line := a + ":" + (b + ":" + (c + ":" + tail));
            |a| + |b| + |c| + 3 <= |line| && line[|a| + |b| + |c| + 3..] == tail
  {
  }

  lemma {:induction false} LongEntryFrom(a: string, b: string, c: string, d: string, tail: string, more: seq<string>)
    requires Fields(a + ":" + (b + ":" + (c + ":" + tail))) == [a, b, c] + ([d] + more)
    ensures var line := a + ":" + (b + ":" + (c + ":" + tail));
            EntryOf(line) == if b in Words() then StateEntry(a, Words()[b])
                             else MoveEntry(a, c, if more == [] then d else if |d| >= 2 then d[..|d| - 2] else tail)
  {
    var line := a + ":" + (b + ":" + (c + ":" + tail));
    EntryFrom(line, [a, b, c] + ([d] + more));
    hide Fields, EntryOf, Words;
    AfterThree(a, b, c, tail);
  }

  lemma {:induction false} LoadMoreConcat(m: LogMap, a: seq<string>, b: seq<string>)
    ensures LoadMore(m, a + b) == LoadMore(LoadMore(m, a), b)
  {
    if b == [] {
      assert a + b == a;
    } else {
      assert (a + b)[..|a + b| - 1] == a + b[..|b| - 1];
      LoadMoreConcat(m, a, b[..|b| - 1]);
    }
  }

  lemma {:induction false} LoadMoves(m: LogMap, id: string, movs: seq<(string, string)>)
    requires id in m && CleanRecord(Start(id, movs))
    ensures LoadMore(m, MoveLines(id, movs)) == m[id := m[id].(names := m[id].names + Flatten(movs))]
  {
    if movs != [] {
      var init, last := movs[..|movs| - 1], movs[|movs| - 1];
      assert CleanRecord(Start(id, init));
      LoadMoves(m, id, init);
      MoveLineEntry(id, last);
      var ls := MoveLines(id, movs);
      assert ls[..|ls| - 1] == MoveLines(id, init);
      assert m[id].names + Flatten(init) + [last.0, last.1] == m[id].names + Flatten(movs);
    } else {
      assert m[id].names + [] == m[id].names;
    }
  }

  lemma {:induction false} LoadOneLine(m: LogMap, line: string)
    ensures LoadMore(m, [line]) == Absorb(m, EntryOf(line))
  {
  }

  /** What one more record does to the entry of its id. */
  function Extended(m: LogMap, r: Record): LogMap {
    var d := if r.id in m then m[r.id] else LogData(START, []);
    m[r.id := LogData(if r.Pending? then d.state else StateIn(r), d.names + NamesIn(r))]
  }

  lemma {:induction false} OneMoreRecord(rs: seq<Record>, r: Record, id: string)
    ensures StateOf(rs + [r], id) == if r.id == id && !r.Pending? then StateIn(r) else StateOf(rs, id)
    ensures NamesOf(rs + [r], id) == NamesOf(rs, id) + if r.id == id then NamesIn(r) else []
  {
  }

  lemma {:induction false} SummaryGrows(rs: seq<Record>, r: Record)
    ensures Summary(rs + [r]) == Extended(Summary(rs), r)
  {
    assert Ids(rs + [r]) == Ids(rs) + {r.id};
    if r.id !in Ids(rs) {
      UnknownId(rs, r.id);
    }
    forall id | id in Ids(rs + [r])
      ensures Summary(rs + [r])[id] == Extended(Summary(rs), r)[id]
    {
      OneMoreRecord(rs, r, id);
    }
  }

  lemma {:induction false} UnknownId(rs: seq<Record>, id: string)
    requires id !in Ids(rs)
    ensures StateOf(rs, id) == START && NamesOf(rs, id) == []
  {
    if rs != [] {
      var last := rs[|rs| - 1];
      assert last in rs;
      assert forall r :: r in rs[..|rs| - 1] ==> r in rs;
      UnknownId(rs[..|rs| - 1], id);
    }
  }

  lemma {:induction false} LoadStateLine(m: LogMap, r: Record, state: string)
    requires Clean(r.id) && Clean(state) && IsState(state) && !r.Start? && !r.Pending?
    requires GetStateOfCurrentServer(state) == StateIn(r)
    ensures LoadMore(m, [StateLine(r.id, state)]) == Extended(m, r)
  {
    StateLineEntry(r.id, state);
    LoadOneLine(m, StateLine(r.id, state));
    var d := if r.id in m then m[r.id] else LogData(START, []);
    assert NamesIn(r) == [] && d.names + [] == d.names;
  }

  lemma {:induction false} LoadStart(m: LogMap, r: Record)
    requires CleanRecord(r) && r.Start?
    ensures LoadMore(m, Lines(r)) == Extended(m, r)
  {
    StateNamesAreClean();
    var first := StateLine(r.id, STATE_START);
    StateLineEntry(r.id, STATE_START);
    LoadOneLine(m, first);
    LoadMoreConcat(m, [first], MoveLines(r.id, r.movs));
    LoadMoves(LoadMore(m, [first]), r.id, r.movs);
  }

  lemma {:induction false} LoadRecord(m: LogMap, r: Record)
    requires CleanRecord(r)
    ensures LoadMore(m, Lines(r)) == Extended(m, r)
  {
    StateNamesAreClean();
    match r
    case Start(id, movs) => LoadStart(m, r);
    case Abort(id) => LoadStateLine(m, r, STATE_ABORT);
    case ReplInit(id) => LoadStateLine(m, r, STATE_RPC_INIT);
    case Commit(id) => LoadStateLine(m, r, STATE_COMMIT);
    case Pending(id) =>
      PendingLineEntry(id);
      LoadOneLine(m, StateLine(id, STATE_PENDING_REPLICATION));
  }

  lemma {:induction false} LoadOneMore(rs: seq<Record>, r: Record)
    requires CleanRecord(r) && LoadMore(map[], LogLines(rs)) == Summary(rs)
    ensures LoadMore(map[], LogLines(rs + [r])) == Summary(rs + [r])
  {
    assert (rs + [r])[..|rs|] == rs;
    LoadMoreConcat(map[], LogLines(rs), Lines(r));
    LoadRecord(Summary(rs), r);
    SummaryGrows(rs, r);
  }

  lemma {:induction false} LoadLog(rs: seq<Record>)
    requires CleanLog(rs)
    ensures LoadMore(map[], LogLines(rs)) == Summary(rs)
  {
    hide EntryOf, Lines;
    if rs != [] {
      LoadLog(rs[..|rs| - 1]);
      LoadOneMore(rs[..|rs| - 1], rs[|rs| - 1]);
      assert rs[..|rs| - 1] + [rs[|rs| - 1]] == rs;
    }
  }

  lemma {:induction false} NextLine(t: string, from: nat, i: int)
    requires from < |t| && i == Find(t, '\n', from)
    ensures i == -1 ==> TextLines(t, from) == [t[from..]]
    ensures i != -1 ==> TextLines(t, from) == [t[from..i]] + TextLines(t, i + 1)
  {
  }

  lemma {:induction false} NoLines(t: string)
    ensures TextLines(t, |t|) == []
  {
  }

  lemma {:induction false} TextLinesShift(t: string, p: nat, s: string, from: nat)
    requires |t| == p + |s| && EndsWith(t, p, s) && from <= |s|
    ensures TextLines(t, p + from) == TextLines(s, from)
    decreases |s| - from
  {
    hide Find, EndsWith, TextLines;
    if from == |s| {
      NoLines(s);
      NoLines(t);
    } else {
      var i := Find(s, '\n', from);
      FindShift(t, p, s, '\n', from);
      NextLine(s, from, i);
      NextLine(t, p + from, if i == -1 then -1 else p + i);
      SliceShift(t, p, s, from, if i == -1 then from else i);
      if i != -1 {
        TextLinesShift(t, p, s, i + 1);
        assert p + (i + 1) == p + i + 1;
      }
    }
  }

  lemma {:induction false} FirstLine(l: string, rest: string)
    requires '\n' !in l
    ensures TextLines(l + "\n" + rest) == [l] + TextLines(rest)
  {
    var t := l + "\n" + rest;
    FirstOccurrence(t, '\n', 0, |l|);
    assert t[0..|l|] == l;
    TextLinesShift(t, |l| + 1, rest, 0);
  }

  lemma {:induction false} OneLine(l: string)
    requires '\n' !in l
    ensures TextLines(l) == if l == "" then [] else [l]
  {
  }

  /** A last line without its newline is a line like any other. */
  lemma {:induction false} TextLinesExactly(lines: seq<string>, last: string)
    requires '\n' !in last && forall i :: 0 <= i < |lines| ==> '\n' !in lines[i]
    ensures TextLines(Text(lines) + last) == lines + if last == "" then [] else [last]
  {
    hide Find, TextLines;
    if lines == [] {
      assert Text(lines) + last == last;
      OneLine(last);
    } else {
      var l, rest := lines[0], lines[1..];
      assert lines == [l] + rest && [l][..0] == [];
      TextConcat([l], rest);
      assert Text([l]) == l + "\n";
      hide Text;
      FirstLine(l, Text(rest) + last);
      Associative(l + "\n", Text(rest), last);
      TextLinesExactly(rest, last);
    }
  }

  lemma {:induction false} TextLinesOfText(lines: seq<string>)
    requires forall i :: 0 <= i < |lines| ==> '\n' !in lines[i]
    ensures TextLines(Text(lines)) == lines
  {
    TextLinesExactly(lines, "");
    assert Text(lines) + "" == Text(lines);
  }

  lemma {:induction false} MoveLinesClean(id: string, movs: seq<(string, string)>)
    requires CleanRecord(Start(id, movs))
    ensures forall i :: 0 <= i < |MoveLines(id, movs)| ==> '\n' !in MoveLines(id, movs)[i]
  {
    if movs != [] {
      assert CleanRecord(Start(id, movs[..|movs| - 1]));
      MoveLinesClean(id, movs[..|movs| - 1]);
    }
  }

  lemma {:induction false} LogLinesClean(rs: seq<Record>)
    requires CleanLog(rs)
    ensures forall i :: 0 <= i < |LogLines(rs)| ==> '\n' !in LogLines(rs)[i]
  {
    if rs != [] {
      var last := rs[|rs| - 1];
      LogLinesClean(rs[..|rs| - 1]);
      if last.Start? {
        MoveLinesClean(last.id, last.movs);
      }
    }
  }

  /** Parsing what any interleaving of log calls wrote gives the summary of those calls. */
  lemma {:induction false} LogRoundTrip(rs: seq<Record>)
    requires CleanLog(rs)
    ensures LoadMore(map[], TextLines(Text(LogLines(rs)))) == Summary(rs)
  {
    LogLinesClean(rs);
    TextLinesOfText(LogLines(rs));
    LoadLog(rs);
  }
}
