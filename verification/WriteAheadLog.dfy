/** The write-ahead log: its records, and the text that the `log_*` calls append. */
module WriteAheadLog {

  /** `util/state.h`; START is the zero of the enumeration. */
  datatype State = START | ABORT | RPC_INIT | COMMIT | PENDING_REPLICATION

  datatype Record =
    | Start(id: string, movs: seq<(string, string)>)  // (temp path, original path)
    | Abort(id: string)
    | ReplInit(id: string)
    | Commit(id: string)
    | Pending(id: string)

  const STATE_START: string := "TXN_START"
  const STATE_ABORT: string := "ABORT"
  const STATE_RPC_INIT: string := "REPL_INIT"
  const STATE_COMMIT: string := "COMMIT"
  const STATE_PENDING_REPLICATION: string := "PENDING_REPLICATION"
  const MV: string := "MV"

  /** No record delimiter and no newline: what ids and paths need to survive the text format. */
  predicate Clean(s: string) {
    ':' !in s && '\n' !in s
  }

  predicate CleanRecord(r: Record) {
    && Clean(r.id)
    && (r.Start? ==> forall i :: 0 <= i < |r.movs| ==> Clean(r.movs[i].0) && Clean(r.movs[i].1))
  }

  ghost predicate CleanLog(rs: seq<Record>) {
    forall i :: 0 <= i < |rs| ==> CleanRecord(rs[i])
  }

  function StateLine(id: string, state: string): string {
    id + ":" + state
  }

  function MoveLine(id: string, mov: (string, string)): string {
    id + ":" + MV + ":" + mov.0 + ":" + mov.1
  }

  function MoveLines(id: string, movs: seq<(string, string)>): (r: seq<string>) {
    if movs == [] then [] else MoveLines(id, movs[..|movs| - 1]) + [MoveLine(id, movs[|movs| - 1])]
  }

  /** The lines of one record. */
  function Lines(r: Record): seq<string> {
    match r
    case Start(id, movs) => [StateLine(id, STATE_START)] + MoveLines(id, movs)
    case Abort(id) => [StateLine(id, STATE_ABORT)]
    case ReplInit(id) => [StateLine(id, STATE_RPC_INIT)]
    case Commit(id) => [StateLine(id, STATE_COMMIT)]
    case Pending(id) => [StateLine(id, STATE_PENDING_REPLICATION)]
  }

  function LogLines(rs: seq<Record>): seq<string> {
    if rs == [] then [] else LogLines(rs[..|rs| - 1]) + Lines(rs[|rs| - 1])
  }

  /** Lines as file text: each ends in a newline. */
  function Text(lines: seq<string>): string {
    if lines == [] then "" else Text(lines[..|lines| - 1]) + lines[|lines| - 1] + "\n"
  }

  lemma {:induction false} TextConcat(a: seq<string>, b: seq<string>)
    ensures Text(a + b) == Text(a) + Text(b)
  {
    if b == [] {
      assert a + b == a;
    } else {
      var c := b[..|b| - 1];
      assert (a + b)[..|a + b| - 1] == a + c;
      TextConcat(a, c);
      assert Text(a) + (Text(c) + b[|b| - 1] + "\n") == Text(a) + Text(c) + b[|b| - 1] + "\n";
    }
  }

  /** The text of a transaction's start and its first `i` moves. */
  function StartText(id: string, movs: seq<(string, string)>, i: nat): string
    requires i <= |movs|
  {
    Text([StateLine(id, STATE_START)] + MoveLines(id, movs[..i]))
  }

  lemma {:induction false} StartTextIs(id: string, movs: seq<(string, string)>)
    ensures StartText(id, movs, 0) == id + ":" + STATE_START + "\n"
    ensures StartText(id, movs, |movs|) == Text(Lines(Start(id, movs)))
  {
    var line := StateLine(id, STATE_START);
    assert movs[..|movs|] == movs;
    assert [line] + MoveLines(id, movs[..0]) == [line] && [line][..0] == [];
    assert Text([line]) == line + "\n";
  }

  lemma {:induction false} OneMoreMove(id: string, movs: seq<(string, string)>, i: nat)
    requires i < |movs|
    ensures StartText(id, movs, i + 1) == StartText(id, movs, i) + id + ":" + MV + ":" + movs[i].0 + ":" + movs[i].1 + "\n"
  {
    var lines, line := [StateLine(id, STATE_START)] + MoveLines(id, movs[..i]), MoveLine(id, movs[i]);
    assert movs[..i + 1][..i] == movs[..i];
    assert [StateLine(id, STATE_START)] + MoveLines(id, movs[..i + 1]) == lines + [line];
    assert (lines + [line])[..|lines|] == lines;
    var text := Text(lines);
    hide Text;
    assert text + line + "\n" == text + id + ":" + MV + ":" + movs[i].0 + ":" + movs[i].1 + "\n";
  }

  /** The moves of a transaction as the log file shows them. */
  function MovesText(id: string, movs: seq<(string, string)>): string {
    if movs == [] then ""
    else
      var mov := movs[|movs| - 1];
      MovesText(id, movs[..|movs| - 1]) + id + ":MV:" + mov.0 + ":" + mov.1 + "\n"
  }

  lemma {:induction false} MovesTextGrows(id: string, movs: seq<(string, string)>, i: nat)
    requires i < |movs|
    ensures MovesText(id, movs[..i + 1]) == MovesText(id, movs[..i]) + id + ":MV:" + movs[i].0 + ":" + movs[i].1 + "\n"
  {
    assert movs[..i + 1][..i] == movs[..i];
  }

  lemma {:induction false} Regrouped(a: string, m: string, b: string, c: string, d: string, e: string, f: string, g: string)
    ensures a + m + b + c + d + e + f + g == a + (m + b + c + d + e + f + g)
  {
  }

  lemma {:induction false} MoveMarker(text: string, id: string)
    ensures text + id + ":" + MV + ":" == text + id + ":MV:"
  {
    assert text + id + ":" + MV + ":" == text + id + (":" + MV + ":");
  }

  lemma {:induction false} FirstLineLiterally(id: string, movs: seq<(string, string)>)
    ensures StartText(id, movs, 0) == id + ":TXN_START\n" + MovesText(id, movs[..0])
  {
    StartTextIs(id, movs);
    assert id + ":" + STATE_START + "\n" == id + ":TXN_START\n";
    hide StartText;
  }

  lemma {:induction false} StartTextLiterally(id: string, movs: seq<(string, string)>, i: nat)
    requires i <= |movs|
    ensures StartText(id, movs, i) == id + ":TXN_START\n" + MovesText(id, movs[..i])
  {
    if i == 0 {
      FirstLineLiterally(id, movs);
    } else {
      hide StartText, MovesText;
      var x, y := movs[i - 1].0, movs[i - 1].1;
      StartTextLiterally(id, movs, i - 1);
      OneMoreMove(id, movs, i - 1);
      MovesTextGrows(id, movs, i - 1);
      MoveMarker(StartText(id, movs, i - 1), id);
      Regrouped(id + ":TXN_START\n", MovesText(id, movs[..i - 1]), id, ":MV:", x, ":", y, "\n");
    }
  }

  /** What each record looks like in the file. */
  lemma {:induction false} RecordText(id: string, movs: seq<(string, string)>)
    ensures Text(Lines(Start(id, movs))) == id + ":TXN_START\n" + MovesText(id, movs)
    ensures Text(Lines(Abort(id))) == id + ":ABORT\n"
    ensures Text(Lines(ReplInit(id))) == id + ":REPL_INIT\n"
    ensures Text(Lines(Commit(id))) == id + ":COMMIT\n"
    ensures Text(Lines(Pending(id))) == id + ":PENDING_REPLICATION\n"
  {
    StartTextIs(id, movs);
    StartTextLiterally(id, movs, |movs|);
    assert movs[..|movs|] == movs;
    OneLineText(id, STATE_ABORT);
    OneLineText(id, STATE_RPC_INIT);
    OneLineText(id, STATE_COMMIT);
    OneLineText(id, STATE_PENDING_REPLICATION);
    hide Text, StartText, MovesText, StateLine;
    assert STATE_ABORT + "\n" == "ABORT\n" && STATE_RPC_INIT + "\n" == "REPL_INIT\n";
  }

  lemma {:induction false} OneLineText(id: string, state: string)
    ensures Text([StateLine(id, state)]) == id + (":" + state + "\n")
  {
    assert [StateLine(id, state)][..0] == [];
    assert id + ":" + state + "\n" == id + (":" + state + "\n");
  }

  /** The log file behind a descriptor opened for appending. */
  class WAL {
    var text: string
    ghost var records: seq<Record>

    ghost predicate Valid()
      reads this
    {
      text == Text(LogLines(records))
    }

    constructor ()
      ensures Valid() && records == []
    {
      text := "";
      records := [];
    }

    ghost method Recorded(r: Record, log: string)
      requires text == Text(LogLines(records)) + log && log == Text(Lines(r))
      modifies this`records
      ensures Valid() && records == old(records) + [r]
    {
      TextConcat(LogLines(records), Lines(r));
      assert (records + [r])[..|records|] == records;
      records := records + [r];
    }

    method LogStateLine(r: Record, state: string)
      requires Valid() && Lines(r) == [StateLine(r.id, state)]
      modifies this
      ensures Valid() && records == old(records) + [r]
    {
      var log := r.id + ":" + state + "\n";
      text := text + log;
      assert Lines(r)[..0] == [];
      assert Text(Lines(r)) == log;
      Recorded(r, log);
    }

    /** Throws, before it writes anything, when there are no moves. */
    method LogPrepare(id: string, movs: seq<(string, string)>) returns (thrown: bool)
      requires Valid()
      modifies this
      ensures thrown == (movs == [])
      ensures Valid() && records == if thrown then old(records) else old(records) + [Start(id, movs)]
    {
      if movs == [] {
        return true;
      }
      var log := id + ":" + STATE_START + "\n";
      StartTextIs(id, movs);
      for i := 0 to |movs|
        invariant text == old(text) && records == old(records) && log == StartText(id, movs, i)
      {
        var mov := movs[i];
        OneMoreMove(id, movs, i);
        log := log + id + ":" + MV + ":" + mov.0 + ":" + mov.1 + "\n";
      }
      text := text + log;
      Recorded(Start(id, movs), log);
      thrown := false;
    }

    method LogAbort(id: string)
      requires Valid()
      modifies this
      ensures Valid() && records == old(records) + [Abort(id)]
    {
      LogStateLine(Abort(id), STATE_ABORT);
    }

    method LogCommit(id: string)
      requires Valid()
      modifies this
      ensures Valid() && records == old(records) + [Commit(id)]
    {
      LogStateLine(Commit(id), STATE_COMMIT);
    }

    method LogReplicationInit(id: string)
      requires Valid()
      modifies this
      ensures Valid() && records == old(records) + [ReplInit(id)]
    {
      LogStateLine(ReplInit(id), STATE_RPC_INIT);
    }

    method LogPendingReplication(id: string)
      requires Valid()
      modifies this
      ensures Valid() && records == old(records) + [Pending(id)]
    {
      LogStateLine(Pending(id), STATE_PENDING_REPLICATION);
    }

    /** `Cleanup` in recovery: `truncate(LOG_FILE_PATH, 0)`. */
    method Truncate()
      requires Valid()
      modifies this
      ensures Valid() && records == []
    {
      text := "";
      records := [];
    }
  }
}
