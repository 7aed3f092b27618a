/** The catalog over all accounts, rebuilt from one global log of custody events. */
module CustodyCatalog {
  import opened Base
  import opened Text
  import opened Custody

  datatype CustodyRecord = CustodyRecord(account: string, event: Event)

  function StandingIn(catalog: map<string, Standing>, account: string): Standing {
    if account in catalog then catalog[account] else Initial
  }

  function CatalogOf(log: seq<CustodyRecord>): map<string, Standing> {
    if log == [] then map[]
    else
      var before := CatalogOf(log[..|log| - 1]);
      var last := log[|log| - 1];
      before[last.account := Evolve(StandingIn(before, last.account), last.event)]
  }

  /** The events of one account, in order. */
  function EventsOf(log: seq<CustodyRecord>, account: string): seq<Event> {
    if log == [] then []
    else
      var before := EventsOf(log[..|log| - 1], account);
      if log[|log| - 1].account == account then before + [log[|log| - 1].event] else before
  }

  /** The catalog holds for each account what that account's events alone make of it. */
  lemma {:induction false} CatalogIsPerAccount(log: seq<CustodyRecord>, account: string)
    ensures StandingIn(CatalogOf(log), account) == EvolveAll(Initial, EventsOf(log, account))
  {
    hide Evolve;
    if log != [] {
      CatalogIsPerAccount(log[..|log| - 1], account);
      var before := EventsOf(log[..|log| - 1], account);
      assert (before + [log[|log| - 1].event])[..|before|] == before;
    }
  }

  function RecordsOf(account: string, events: seq<Event>): seq<CustodyRecord> {
    if events == [] then []
    else RecordsOf(account, events[..|events| - 1]) + [CustodyRecord(account, events[|events| - 1])]
  }

  lemma {:induction false} RecordsAppended(log: seq<CustodyRecord>, account: string, events: seq<Event>, a: string)
    ensures EventsOf(log + RecordsOf(account, events), a)
         == EventsOf(log, a) + (if a == account then events else [])
    decreases |events|
  {
    if events == [] {
      assert log + RecordsOf(account, events) == log;
    } else {
      var before := log + RecordsOf(account, events[..|events| - 1]);
      RecordsAppended(log, account, events[..|events| - 1], a);
      assert log + RecordsOf(account, events) == before + [CustodyRecord(account, events[|events| - 1])];
      assert (before + [CustodyRecord(account, events[|events| - 1])])[..|before|] == before;
      assert events == events[..|events| - 1] + [events[|events| - 1]];
    }
  }

  /** Decide one account's command against the catalog. The record is written under the
      trimmed account name; the standing is read under the name as given. */
  function Submit(log: seq<CustodyRecord>, account: string, c: Command): seq<CustodyRecord> {
    var d := Decide(StandingIn(CatalogOf(log), account), c);
    if d.Err? || Blank(account) then log else log + RecordsOf(Trim(account), d.value)
  }

  function GlobalLog(commands: seq<(string, Command)>): seq<CustodyRecord> {
    if commands == [] then []
    else Submit(GlobalLog(commands[..|commands| - 1]), commands[|commands| - 1].0, commands[|commands| - 1].1)
  }

  /** The commands submitted for one account. */
  function CommandsOf(commands: seq<(string, Command)>, account: string): seq<Command> {
    if commands == [] then []
    else
      var before := CommandsOf(commands[..|commands| - 1], account);
      if commands[|commands| - 1].0 == account then before + [commands[|commands| - 1].1] else before
  }

  /** Accounts do not disturb each other: whatever is submitted for the others, an
      account's events are those of its own commands alone, so everything proved of one
      account's log holds of each account in the global one. */
  lemma {:induction false} AccountsAreIndependent(commands: seq<(string, Command)>, account: string)
    requires forall c | c in commands :: Trim(c.0) == c.0 || Blank(c.0)
    requires !Blank(account)
    ensures EventsOf(GlobalLog(commands), account) == Log(CommandsOf(commands, account))
    decreases |commands|
  {
    hide Decide, EvolveAll, Trim;
    if commands != [] {
      var before, last := commands[..|commands| - 1], commands[|commands| - 1];
      assert last in commands;
      AccountsAreIndependent(before, account);
      var log := GlobalLog(before);
      CatalogIsPerAccount(log, last.0);
      var d := Decide(StandingIn(CatalogOf(log), last.0), last.1);
      if d.Ok? {
        RecordsAppended(log, Trim(last.0), d.value, account);
      }
      var mine := CommandsOf(before, account);
      assert (mine + [last.1])[..|mine|] == mine;
    }
  }

  function Repeat<T>(x: T, n: nat): seq<T> {
    if n == 0 then [] else Repeat(x, n - 1) + [x]
  }

  /** The same account name written untrimmed starts its migration as often as it is asked
      to: each start is recorded under the trimmed name, and none is seen under the name
      asked with. */
  lemma {:induction false} UntrimmedNameRestarts(account: string, operation: string, basis: string, n: nat)
    requires Trim(account) != account && !Blank(account)
    requires !Blank(operation) && !Blank(basis)
    ensures var log := GlobalLog(Repeat((account, BeginMigration(operation, basis)), n));
            && EventsOf(log, account) == []
            && EventsOf(log, Trim(account)) == Repeat(MigrationStarted(Trim(operation), Trim(basis)), n)
            && (Legal(Kinds(EventsOf(log, Trim(account)))) <==> n <= 1)
  {
    hide Trim, Blank, Submit, Legal, Kinds, GlobalLog, EventsOf;
    var begin := (account, BeginMigration(operation, basis));
    if n == 0 {
      NothingLogged(account);
      NothingLogged(Trim(account));
    } else {
      UntrimmedNameRestarts(account, operation, basis, n - 1);
      LogOneMore(Repeat(begin, n - 1), begin);
      StartsOnceMore(GlobalLog(Repeat(begin, n - 1)), account, operation, basis);
    }
    OnlyOneStart(MigrationStarted(Trim(operation), Trim(basis)), n);
  }

  lemma NothingLogged(account: string)
    ensures EventsOf(GlobalLog([]), account) == []
  {
  }

  lemma LogOneMore(commands: seq<(string, Command)>, c: (string, Command))
    ensures GlobalLog(commands + [c]) == Submit(GlobalLog(commands), c.0, c.1)
  {
    hide Submit;
    assert (commands + [c])[..|commands|] == commands;
  }

  /** A name with no events under it starts a migration. */
  lemma StartsOnceMore(log: seq<CustodyRecord>, account: string, operation: string, basis: string)
    requires Trim(account) != account && !Blank(account) && !Blank(operation) && !Blank(basis)
    requires EventsOf(log, account) == []
    ensures var more := Submit(log, account, BeginMigration(operation, basis));
            && EventsOf(more, account) == []
            && EventsOf(more, Trim(account))
               == EventsOf(log, Trim(account)) + [MigrationStarted(Trim(operation), Trim(basis))]
  {
    hide Trim, Blank, EventsOf, CatalogOf, RecordsOf;
    var started := MigrationStarted(Trim(operation), Trim(basis));
    CatalogIsPerAccount(log, account);
    RecordsAppended(log, Trim(account), [started], account);
    RecordsAppended(log, Trim(account), [started], Trim(account));
    assert EventsOf(log, account) + [] == [];
  }

  lemma {:induction false} OnlyOneStart(started: Event, n: nat)
    requires started.MigrationStarted?
    ensures Legal(Kinds(Repeat(started, n))) <==> n <= 1
    ensures n > 0 ==> Started in Kinds(Repeat(started, n))
  {
    if n > 0 {
      OnlyOneStart(started, n - 1);
      KindsSnoc(Repeat(started, n - 1), started);
      LegalSnoc(Kinds(Repeat(started, n - 1)), Started);
    }
  }

  /** Read the catalog back from the store's rows, one of which may be unreadable. */
  class Catalog {
    var accounts: map<string, Standing>

    constructor ()
      ensures accounts == map[]
    {
      accounts := map[];
    }

    method Rebuild(rows: seq<Option<CustodyRecord>>) returns (complete: bool)
      modifies this
      ensures complete <==> None !in rows
      ensures complete ==> accounts == CatalogOf(Readable(rows))
    {
      accounts := map[];
      for i := 0 to |rows|
        invariant None !in rows[..i]
        invariant accounts == CatalogOf(Readable(rows[..i]))
      {
        if rows[i].None? {
          assert rows[i] in rows;
          return false;
        }
        var record := rows[i].value;
        accounts := accounts[record.account := Evolve(StandingIn(accounts, record.account), record.event)];
        assert rows[..i + 1] == rows[..i] + [rows[i]];
        ReadableSnoc(rows[..i], rows[i]);
      }
      assert rows[..|rows|] == rows;
      return true;
    }
  }

  function Readable(rows: seq<Option<CustodyRecord>>): seq<CustodyRecord> {
    if rows == [] then []
    else Readable(rows[..|rows| - 1]) + (if rows[|rows| - 1].Some? then [rows[|rows| - 1].value] else [])
  }

  lemma ReadableSnoc(rows: seq<Option<CustodyRecord>>, row: Option<CustodyRecord>)
    requires row.Some?
    ensures CatalogOf(Readable(rows + [row]))
         == CatalogOf(Readable(rows))
            [row.value.account := Evolve(StandingIn(CatalogOf(Readable(rows)), row.value.account), row.value.event)]
  {
    hide Evolve;
    assert (rows + [row])[..|rows|] == rows;
    assert Readable(rows + [row])[..|Readable(rows)|] == Readable(rows);
  }
}
