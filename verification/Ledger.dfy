/** The bank ledger that every consensus node replays its committed commands into:
    the four commands, their effect on the book with machine-width balances, and the
    conservation law that ties the book to the money that went in and came out. */
module Ledger {

  const USIZE_MODULUS := 0x1_0000_0000_0000_0000

  type Usize = n: nat | n < USIZE_MODULUS

  datatype Command =
    | Open(account: string)
    | Deposit(account: string, amount: Usize)
    | Withdraw(account: string, amount: Usize)
    | Transfer(src: string, dst: string, amount: Usize)

  type Book = map<string, Usize>

  /** `usize` addition of a build without overflow checks; a checked build stops instead
      whenever this differs from the exact sum. */
  function WrappingAdd(a: Usize, b: Usize): Usize {
    if a + b < USIZE_MODULUS then a + b else a + b - USIZE_MODULUS
  }

  /** The effect of one committed command on the book. A rejected command leaves it alone.
      A transfer reads the destination after the source has been debited, so a transfer to
      oneself reads the debited balance. */
  function Apply(book: Book, cmd: Command): Book {
    match cmd
    case Open(a) =>
      if a in book then book else book[a := 0]
    case Deposit(a, amount) =>
      if a in book then book[a := WrappingAdd(book[a], amount)] else book
    case Withdraw(a, amount) =>
      if a in book && amount <= book[a] then book[a := book[a] - amount] else book
    case Transfer(src, dst, amount) =>
      if src in book && dst in book && amount <= book[src] then
        var debited := book[src := book[src] - amount];
        debited[dst := WrappingAdd(debited[dst], amount)]
      else
        book
  }

  /** The book after a whole sequence of commands, from the empty book. */
  function Replay(cmds: seq<Command>): Book {
    if cmds == [] then map[] else Apply(Replay(cmds[..|cmds| - 1]), cmds[|cmds| - 1])
  }

  lemma ReplayStep(cmds: seq<Command>, cmd: Command)
    ensures Replay(cmds + [cmd]) == Apply(Replay(cmds), cmd)
  {
    assert (cmds + [cmd])[..|cmds|] == cmds;
  }

  // ---------------------------------------------------------------- money in, money out

  /** Money that `cmd` brings in when run on `book`: nothing unless the deposit is accepted. */
  function Credited(book: Book, cmd: Command): nat {
    if cmd.Deposit? && cmd.account in book then cmd.amount else 0
  }

  /** Money that `cmd` takes out when run on `book`. */
  function Debited(book: Book, cmd: Command): nat {
    if cmd.Withdraw? && cmd.account in book && cmd.amount <= book[cmd.account] then cmd.amount else 0
  }

  function AcceptedDeposits(cmds: seq<Command>): nat {
    if cmds == [] then 0
    else AcceptedDeposits(cmds[..|cmds| - 1]) + Credited(Replay(cmds[..|cmds| - 1]), cmds[|cmds| - 1])
  }

  function AcceptedWithdrawals(cmds: seq<Command>): nat {
    if cmds == [] then 0
    else AcceptedWithdrawals(cmds[..|cmds| - 1]) + Debited(Replay(cmds[..|cmds| - 1]), cmds[|cmds| - 1])
  }

  /** All deposit amounts in the sequence, accepted or not. */
  function DepositSum(cmds: seq<Command>): nat {
    if cmds == [] then 0
    else
      var last := cmds[|cmds| - 1];
      DepositSum(cmds[..|cmds| - 1]) + if last.Deposit? then last.amount else 0
  }

  /** The sum of all balances. */
  ghost function Total(book: Book): nat {
    if book == map[] then 0
    else
      var a :| a in book;
      book[a] + Total(book - {a})
  }

  lemma {:induction false} TotalSplit(book: Book, a: string)
    requires a in book
    ensures Total(book) == book[a] + Total(book - {a})
    decreases |book|
  {
    var b :| b in book && Total(book) == book[b] + Total(book - {b});
    if a != b {
      TotalSplit(book - {b}, a);
      TotalSplit(book - {a}, b);
      assert book - {b} - {a} == book - {a} - {b};
    }
  }

  lemma TotalUpdate(book: Book, a: string, v: Usize)
    ensures Total(book[a := v]) == Total(book) - (if a in book then book[a] else 0) + v
  {
    TotalSplit(book[a := v], a);
    assert book[a := v] - {a} == book - {a};
    if a in book {
      TotalSplit(book, a);
    } else {
      assert book - {a} == book;
    }
  }

  /** Whether running `cmd` on `book` makes an addition leave the machine range. */
  predicate Overflows(book: Book, cmd: Command) {
    || (cmd.Deposit? && cmd.account in book && book[cmd.account] + cmd.amount >= USIZE_MODULUS)
    || (cmd.Transfer? && cmd.src in book && cmd.dst in book && cmd.src != cmd.dst
        && cmd.amount <= book[cmd.src] && book[cmd.dst] + cmd.amount >= USIZE_MODULUS)
  }

  lemma TransferConservesExactly(book: Book, src: string, dst: string, amount: Usize)
    ensures var cmd := Transfer(src, dst, amount);
            Total(Apply(book, cmd)) == Total(book) <==> !Overflows(book, cmd)
  {
    if src in book && dst in book && amount <= book[src] {
      var debited := book[src := book[src] - amount];
      TotalUpdate(book, src, book[src] - amount);
      TotalUpdate(debited, dst, WrappingAdd(debited[dst], amount));
    }
  }

  /** One command balances the books exactly when none of its additions overflows; in
      particular a transfer, also one to oneself, then leaves the total unchanged. */
  lemma ApplyConservesExactly(book: Book, cmd: Command)
    ensures Total(Apply(book, cmd)) + Debited(book, cmd) == Total(book) + Credited(book, cmd)
            <==> !Overflows(book, cmd)
  {
    match cmd
    case Open(a) => TotalUpdate(book, a, 0);
    case Deposit(a, amount) =>
      if a in book { TotalUpdate(book, a, WrappingAdd(book[a], amount)); }
    case Withdraw(a, amount) =>
      if a in book && amount <= book[a] { TotalUpdate(book, a, book[a] - amount); }
    case Transfer(src, dst, amount) =>
      TransferConservesExactly(book, src, dst, amount);
  }

  lemma BalanceWithinTotal(book: Book, a: string)
    requires a in book
    ensures book[a] <= Total(book)
  {
    TotalSplit(book, a);
  }

  lemma TwoBalancesWithinTotal(book: Book, a: string, b: string)
    requires a in book && b in book && a != b
    ensures book[a] + book[b] <= Total(book)
  {
    TotalSplit(book, a);
    TotalSplit(book - {a}, b);
  }

  /** The conservation law. As long as everything ever offered for deposit fits a machine
      word, no addition overflows and the balances add up to what was accepted in minus what
      was accepted out. */
  lemma {:induction false} LedgerConservation(cmds: seq<Command>)
    requires DepositSum(cmds) < USIZE_MODULUS
    ensures Total(Replay(cmds)) + AcceptedWithdrawals(cmds) == AcceptedDeposits(cmds)
    ensures AcceptedDeposits(cmds) <= DepositSum(cmds)
    ensures forall k :: 0 <= k < |cmds| ==> !Overflows(Replay(cmds[..k]), cmds[k])
  {
    if cmds != [] {
      var before, last := cmds[..|cmds| - 1], cmds[|cmds| - 1];
      LedgerConservation(before);
      var book := Replay(before);
      match last {
        case Deposit(a, amount) =>
          if a in book { BalanceWithinTotal(book, a); }
        case Transfer(src, dst, amount) =>
          if src in book && dst in book && src != dst { TwoBalancesWithinTotal(book, src, dst); }
        case _ =>
      }
      ApplyConservesExactly(book, last);
      forall k | 0 <= k < |cmds| ensures !Overflows(Replay(cmds[..k]), cmds[k]) {
        if k < |before| { assert cmds[..k] == before[..k]; assert cmds[k] == before[k]; }
      }
    }
  }

  // ------------------------------------------------------------------ account by account

  /** What a command that is carried out brings into account `a`, and what it takes out of it. */
  function Into(cmd: Command, a: string): nat {
    match cmd
    case Deposit(account, amount) => if account == a then amount else 0
    case Transfer(_, dst, amount) => if dst == a then amount else 0
    case _ => 0
  }

  function OutOf(cmd: Command, a: string): nat {
    match cmd
    case Withdraw(account, amount) => if account == a then amount else 0
    case Transfer(src, _, amount) => if src == a then amount else 0
    case _ => 0
  }

  /** Whether the accounts a command names are there, and hold what it takes. */
  predicate Accepted(book: Book, cmd: Command) {
    match cmd
    case Open(a) => a !in book
    case Deposit(a, _) => a in book
    case Withdraw(a, amount) => a in book && amount <= book[a]
    case Transfer(src, dst, amount) => src in book && dst in book && amount <= book[src]
  }

  /** What one command does to every account: only `Open` adds one, and it starts at 0; a rejected
      command changes none; an accepted one moves what it says into and out of each account, exactly
      unless an addition leaves the machine range. */
  lemma ApplyPerAccount(book: Book, cmd: Command, a: string)
    ensures var after := Apply(book, cmd);
            && (a in after <==> a in book || cmd == Open(a))
            && (a !in book && cmd == Open(a) ==> after[a] == 0)
            && (a in book && !Accepted(book, cmd) ==> after[a] == book[a])
            && (a in book && Accepted(book, cmd) ==>
                  && after[a] == (book[a] + Into(cmd, a) - OutOf(cmd, a)) % USIZE_MODULUS
                  && (!Overflows(book, cmd) ==> after[a] == book[a] + Into(cmd, a) - OutOf(cmd, a)))
  {
  }

  // The accounts of a history, told from the commands alone: an account exists once it has been
  // opened, and holds what came in less what went out.

  predicate Opened(cmds: seq<Command>, a: string) {
    Open(a) in cmds
  }

  /** The deposits to `a` and the transfers to it that were carried out. */
  function CameIn(cmds: seq<Command>, a: string): nat
    decreases |cmds|, 0
  {
    if cmds == [] then 0
    else
      var before, last := cmds[..|cmds| - 1], cmds[|cmds| - 1];
      CameIn(before, a) + if CarriedOut(before, last) then Into(last, a) else 0
  }

  /** The withdrawals from `a` and the transfers from it that were carried out. */
  function WentOut(cmds: seq<Command>, a: string): nat
    decreases |cmds|, 0
  {
    if cmds == [] then 0
    else
      var before, last := cmds[..|cmds| - 1], cmds[|cmds| - 1];
      WentOut(before, a) + if CarriedOut(before, last) then OutOf(last, a) else 0
  }

  /** What `a` holds then, in a machine word. */
  function Balance(cmds: seq<Command>, a: string): Usize
    decreases |cmds|, 1
  {
    (CameIn(cmds, a) - WentOut(cmds, a)) % USIZE_MODULUS
  }

  /** Whether `cmd` is carried out after these commands. */
  predicate CarriedOut(cmds: seq<Command>, cmd: Command)
    decreases |cmds|, 2
  {
    match cmd
    case Open(a) => !Opened(cmds, a)
    case Deposit(a, _) => Opened(cmds, a)
    case Withdraw(a, amount) => Opened(cmds, a) && amount <= Balance(cmds, a)
    case Transfer(src, dst, amount) => Opened(cmds, src) && Opened(cmds, dst) && amount <= Balance(cmds, src)
  }

  predicate AccountIs(book: Book, cmds: seq<Command>, a: string) {
    && (a in book <==> Opened(cmds, a))
    && (a in book ==> book[a] == Balance(cmds, a))
    && (a !in book ==> CameIn(cmds, a) == WentOut(cmds, a) == 0)
  }

  lemma WordShift(n: int, d: int)
    ensures (n % USIZE_MODULUS + d) % USIZE_MODULUS == (n + d) % USIZE_MODULUS
  {
  }

  lemma AccountStep(book: Book, before: seq<Command>, last: Command, a: string)
    requires forall b: string :: AccountIs(book, before, b)
    ensures AccountIs(Apply(book, last), before + [last], a)
  {
    var cmds := before + [last];
    assert cmds[..|cmds| - 1] == before && cmds[|cmds| - 1] == last;
    assert AccountIs(book, before, a);
    AcceptedThere(book, before, last);
    ApplyPerAccount(book, last, a);
    assert Opened(cmds, a) <==> Opened(before, a) || last == Open(a);
    if a in book && Accepted(book, last) {
      WordShift(CameIn(before, a) - WentOut(before, a), Into(last, a) - OutOf(last, a));
    }
  }

  lemma AcceptedThere(book: Book, before: seq<Command>, cmd: Command)
    requires forall b: string :: AccountIs(book, before, b)
    ensures Accepted(book, cmd) <==> CarriedOut(before, cmd)
  {
    match cmd
    case Open(a) => assert AccountIs(book, before, a);
    case Deposit(a, _) => assert AccountIs(book, before, a);
    case Withdraw(a, _) => assert AccountIs(book, before, a);
    case Transfer(src, dst, _) => assert AccountIs(book, before, src) && AccountIs(book, before, dst);
  }

  /** After any commands, an account exists if and only if it was opened, and holds what the commands
      carried out brought in less what they took out. */
  lemma {:induction false} AccountBalances(cmds: seq<Command>, a: string)
    ensures a in Replay(cmds) <==> Opened(cmds, a)
    ensures a in Replay(cmds) ==> Replay(cmds)[a] == Balance(cmds, a)
    ensures a !in Replay(cmds) ==> CameIn(cmds, a) == WentOut(cmds, a) == 0
    decreases |cmds|
  {
    if cmds != [] {
      var before, last := cmds[..|cmds| - 1], cmds[|cmds| - 1];
      forall b: string ensures AccountIs(Replay(before), before, b) { AccountBalances(before, b); }
      AccountStep(Replay(before), before, last, a);
      assert before + [last] == cmds;
    }
  }

  /** As long as everything ever offered for deposit fits a machine word, balances are exact. */
  lemma {:induction false} AccountBalancesExact(cmds: seq<Command>, a: string)
    requires DepositSum(cmds) < USIZE_MODULUS && a in Replay(cmds)
    ensures Replay(cmds)[a] == CameIn(cmds, a) - WentOut(cmds, a)
    decreases |cmds|
  {
    if cmds != [] {
      var before, last := cmds[..|cmds| - 1], cmds[|cmds| - 1];
      LedgerConservation(cmds);
      assert !Overflows(Replay(cmds[..|before|]), cmds[|before|]);
      if a in Replay(before) { AccountBalancesExact(before, a); }
      AccountBalances(before, a);
      forall b: string ensures AccountIs(Replay(before), before, b) { AccountBalances(before, b); }
      AcceptedThere(Replay(before), before, last);
      ApplyPerAccount(Replay(before), last, a);
    }
  }
}
