/** The kernel's ordered rule table and the rule books that undo themselves
    (nodemanager/src/networking.rs). A table lists the rules of all chains; appending to, inserting
    at the head of, or deleting from one chain acts on the table in the same way (`ChainOf` lemmas). */
module RuleTable {
  import opened Protocol
  import opened Decimal
  import opened Slots

  type Rule = seq<string> // the arguments after the `-A`, `-I` or `-D` flag; the first is the chain
  type Table = seq<Rule>

  // ---- The rules of one stack ----

  datatype RuleKind =
    | Masquerade(outIf: string)
    | ForwardOut(outIf: string)
    | Dnat(inIf: string, hostPort: nat, guestPort: nat)
    | ForwardReply(inIf: string, guestPort: nat)
    | ForwardNew(inIf: string, guestPort: nat)

  function Args(kind: RuleKind, slot: Slot): Rule {
    var addr, nic := Dotted(slot.ipv4Addr), slot.tapDevName;
    match kind
    case Masquerade(outIf) =>
      ["POSTROUTING", "-t", "nat", "-o", outIf, "-s", addr, "-j", "MASQUERADE"]
    case ForwardOut(outIf) =>
      ["FORWARD", "-i", nic, "-o", outIf, "-j", "ACCEPT"]
    case Dnat(inIf, hostPort, guestPort) =>
      ["PREROUTING", "-t", "nat", "-i", inIf, "-p", "tcp", "--dport", Print(hostPort), "-j", "DNAT",
       "--to-destination", addr + [':'] + Print(guestPort)]
    case ForwardReply(inIf, guestPort) =>
      ["FORWARD", "-i", nic, "-o", inIf, "-p", "tcp", "--sport", Print(guestPort), "-m", "state",
       "--state", "ESTABLISHED,RELATED", "-j", "ACCEPT"]
    case ForwardNew(inIf, guestPort) =>
      ["FORWARD", "-i", inIf, "-o", nic, "-p", "tcp", "--dport", Print(guestPort), "-m", "state",
       "--state", "NEW,ESTABLISHED,RELATED", "-j", "ACCEPT"]
  }

  /** `-I` puts a rule at the head of its chain, `-A` at the end. */
  predicate AtHead(kind: RuleKind) {
    kind.ForwardReply? || kind.ForwardNew?
  }

  function Add(table: Table, rule: Rule, atHead: bool): Table {
    if atHead then [rule] + table else table + [rule]
  }

  /** `-D` removes the first rule equal to its arguments. */
  function Delete(table: Table, rule: Rule): Table {
    if table == [] then []
    else if table[0] == rule then table[1..]
    else [table[0]] + Delete(table[1..], rule)
  }

  function DeleteAll(table: Table, rules: seq<Rule>): Table
    decreases |rules|
  {
    if rules == [] then table else DeleteAll(Delete(table, rules[0]), rules[1..])
  }

  /** All rules a stack on this slot can ever add. */
  ghost function OwnedBy(slot: Slot): iset<Rule> {
    iset rule: Rule | IsRuleOf(rule, slot)
  }

  ghost predicate IsRuleOf(rule: Rule, slot: Slot) {
    exists kind :: Args(kind, slot) == rule
  }

  lemma ArgsIdentifyTheSlot(k: RuleKind, s: Slot, m: RuleKind, t: Slot)
    requires Args(k, s) == Args(m, t)
    ensures s.tapDevName == t.tapDevName || s.ipv4Addr == t.ipv4Addr
  {
    var x, y := Args(k, s), Args(m, t);
    assert |x| == |y|;
    if k.Masquerade? {
      assert x[6] == y[6];
      DottedInjective(s.ipv4Addr, t.ipv4Addr);
    } else if k.Dnat? {
      assert x[12] == y[12];
      DottedHasNoColon(s.ipv4Addr);
      DottedHasNoColon(t.ipv4Addr);
      SplitAtSeparator(Dotted(s.ipv4Addr), Print(k.guestPort), Dotted(t.ipv4Addr), Print(m.guestPort), ':');
      DottedInjective(s.ipv4Addr, t.ipv4Addr);
    } else if k.ForwardOut? {
      assert x[2] == y[2];
    } else {
      assert x[7] == y[7];
      assert "--sport"[2] != "--dport"[2];
      assert x[2] == y[2] && x[4] == y[4];
    }
  }

  /** No rule belongs to two slots. */
  lemma RulesOfSlotsDisjoint(i: nat, j: nat)
    requires i < SLOTS && j < SLOTS && i != j
    ensures SlotFor(i).Some? && SlotFor(j).Some?
    ensures OwnedBy(SlotFor(i).value) !! OwnedBy(SlotFor(j).value)
  {
    SlotsDisjoint(i, j);
    var s, t := SlotFor(i).value, SlotFor(j).value;
    if rule :| rule in OwnedBy(s) && rule in OwnedBy(t) {
      var k :| Args(k, s) == rule;
      var m :| Args(m, t) == rule;
      ArgsIdentifyTheSlot(k, s, m, t);
      assert false;
    }
  }

  // ---- Filtering a table ----

  ghost function Keep(table: Table, rules: iset<Rule>): Table {
    if table == [] then []
    else (if table[0] in rules then [table[0]] else []) + Keep(table[1..], rules)
  }

  ghost function Without(table: Table, rules: iset<Rule>): Table {
    if table == [] then []
    else (if table[0] in rules then [] else [table[0]]) + Without(table[1..], rules)
  }

  lemma KeepOfCons(rule: Rule, later: Table, rules: iset<Rule>)
    ensures Keep([rule] + later, rules) == (if rule in rules then [rule] else []) + Keep(later, rules)
    ensures Without([rule] + later, rules) == (if rule in rules then [] else [rule]) + Without(later, rules)
  {
    assert ([rule] + later)[1..] == later;
  }

  lemma Assoc(a: Table, b: Table, c: Table)
    ensures a + b + c == a + (b + c)
  {
  }

  lemma {:induction false} KeepOfConcat(a: Table, b: Table, rules: iset<Rule>)
    ensures Keep(a + b, rules) == Keep(a, rules) + Keep(b, rules)
    ensures Without(a + b, rules) == Without(a, rules) + Without(b, rules)
  {
    if a == [] {
      assert a + b == b;
    } else {
      var first, later := a[0], a[1..];
      KeepOfConcat(later, b, rules);
      KeepOfCons(first, later + b, rules);
      Assoc([first], later, b);
      assert a == [first] + later;
      Assoc(Keep([first], rules), Keep(later, rules), Keep(b, rules));
      Assoc(Without([first], rules), Without(later, rules), Without(b, rules));
      KeepOfOne(first, rules);
      KeepOfCons(first, later, rules);
    }
  }

  lemma {:induction false} KeepMembers(table: Table, rules: iset<Rule>)
    ensures forall r :: r in Keep(table, rules) <==> r in table && r in rules
    ensures Keep(table, rules) == [] ==> Without(table, rules) == table
  {
    if table != [] {
      KeepMembers(table[1..], rules);
      assert forall r :: r in table <==> r == table[0] || r in table[1..];
    }
  }

  /** Filtering out some rules leaves the order of unrelated ones as it was. */
  lemma {:induction false} KeepAfterWithout(table: Table, gone: iset<Rule>, rules: iset<Rule>)
    requires gone !! rules
    ensures Keep(Without(table, gone), rules) == Keep(table, rules)
  {
    if table != [] {
      KeepAfterWithout(table[1..], gone, rules);
      var head := if table[0] in gone then [] else [table[0]];
      KeepOfConcat(head, Without(table[1..], gone), rules);
      KeepOfOne(table[0], rules);
    }
  }

  lemma {:induction false} WithoutAfterWithout(table: Table, gone: iset<Rule>, rules: iset<Rule>)
    requires gone <= rules
    ensures Without(Without(table, gone), rules) == Without(table, rules)
  {
    if table != [] {
      WithoutAfterWithout(table[1..], gone, rules);
      var head := if table[0] in gone then [] else [table[0]];
      KeepOfConcat(head, Without(table[1..], gone), rules);
      KeepOfOne(table[0], rules);
    }
  }

  lemma KeepOfOne(rule: Rule, rules: iset<Rule>)
    ensures Keep([rule], rules) == if rule in rules then [rule] else []
    ensures Without([rule], rules) == if rule in rules then [] else [rule]
  {
    assert [rule][1..] == [];
  }

  lemma KeepAfterAdd(table: Table, rule: Rule, atHead: bool, rules: iset<Rule>)
    ensures Keep(Add(table, rule, atHead), rules) ==
            if rule in rules then Add(Keep(table, rules), rule, atHead) else Keep(table, rules)
    ensures Without(Add(table, rule, atHead), rules) ==
            if rule in rules then Without(table, rules) else Add(Without(table, rules), rule, atHead)
  {
    KeepOfOne(rule, rules);
    if atHead {
      KeepOfConcat([rule], table, rules);
    } else {
      KeepOfConcat(table, [rule], rules);
    }
  }

  lemma AddCounts(table: Table, rule: Rule, atHead: bool)
    ensures multiset(Add(table, rule, atHead)) == multiset(table) + multiset{rule}
  {
  }

  lemma {:induction false} KeepAfterDelete(table: Table, rule: Rule, rules: iset<Rule>)
    requires rule in rules && rule in table
    ensures Without(Delete(table, rule), rules) == Without(table, rules)
    ensures multiset(Keep(table, rules)) == multiset(Keep(Delete(table, rule), rules)) + multiset{rule}
  {
    var head := [table[0]];
    assert table == head + table[1..];
    KeepOfConcat(head, table[1..], rules);
    KeepOfOne(table[0], rules);
    if table[0] != rule {
      KeepAfterDelete(table[1..], rule, rules);
      KeepOfConcat(head, Delete(table[1..], rule), rules);
    }
  }

  /** Deleting a book one rule at a time removes exactly the rules of its owner, provided the book
      lists them all, and keeps everything else in its order. */
  lemma {:induction false} DeletingABookRemovesItsRules(table: Table, book: seq<Rule>, rules: iset<Rule>)
    requires multiset(Keep(table, rules)) == multiset(book)
    ensures DeleteAll(table, book) == Without(table, rules)
    decreases |book|
  {
    KeepMembers(table, rules);
    if book == [] {
      assert |multiset(Keep(table, rules))| == 0;
    } else {
      var rule := book[0];
      assert book == [rule] + book[1..];
      assert multiset(book) == multiset{rule} + multiset(book[1..]);
      assert rule in multiset(Keep(table, rules));
      KeepAfterDelete(table, rule, rules);
      Cancel(multiset(Keep(Delete(table, rule), rules)), multiset(book[1..]), rule);
      DeletingABookRemovesItsRules(Delete(table, rule), book[1..], rules);
    }
  }

  lemma Cancel(a: multiset<Rule>, b: multiset<Rule>, rule: Rule)
    requires a + multiset{rule} == multiset{rule} + b
    ensures a == b
  {
    assert a == (a + multiset{rule}) - multiset{rule};
    assert b == (multiset{rule} + b) - multiset{rule};
  }

  // ---- Chains ----

  function ChainOf(table: Table, chain: string): Table {
    if table == [] then []
    else (if table[0] != [] && table[0][0] == chain then [table[0]] else []) + ChainOf(table[1..], chain)
  }

  lemma {:induction false} ChainOfConcat(a: Table, b: Table, chain: string)
    ensures ChainOf(a + b, chain) == ChainOf(a, chain) + ChainOf(b, chain)
  {
    if a == [] {
      assert a + b == b;
    } else {
      assert (a + b)[1..] == a[1..] + b;
      ChainOfConcat(a[1..], b, chain);
    }
  }

  /** The table operations act on the chain the rule names as iptables does, and on no other. */
  lemma AddActsOnItsChain(table: Table, rule: Rule, atHead: bool, chain: string)
    requires rule != []
    ensures ChainOf(Add(table, rule, atHead), chain) ==
            if rule[0] == chain then Add(ChainOf(table, chain), rule, atHead) else ChainOf(table, chain)
  {
    assert [rule][1..] == [];
    if atHead {
      ChainOfConcat([rule], table, chain);
    } else {
      ChainOfConcat(table, [rule], chain);
    }
  }

  lemma ChainOfCons(rule: Rule, later: Table, chain: string)
    ensures ChainOf([rule] + later, chain) ==
            if rule != [] && rule[0] == chain then [rule] + ChainOf(later, chain) else ChainOf(later, chain)
  {
    assert ([rule] + later)[1..] == later;
  }

  lemma DeleteOfCons(first: Rule, later: Table, rule: Rule)
    ensures Delete([first] + later, rule) == if first == rule then later else [first] + Delete(later, rule)
  {
    assert ([first] + later)[1..] == later;
  }

  lemma {:induction false} DeleteActsOnItsChain(table: Table, rule: Rule, chain: string)
    requires rule != []
    ensures ChainOf(Delete(table, rule), chain) ==
            if rule[0] == chain then Delete(ChainOf(table, chain), rule) else ChainOf(table, chain)
  {
    if table != [] {
      var first, later := table[0], table[1..];
      assert table == [first] + later;
      ChainOfCons(first, later, chain);
      DeleteOfCons(first, later, rule);
      DeleteOfCons(first, ChainOf(later, chain), rule);
      if first != rule {
        DeleteActsOnItsChain(later, rule, chain);
        ChainOfCons(first, Delete(later, rule), chain);
      }
    }
  }

  // ---- The kernel and a rule book, as the source updates them ----

  class Kernel {
    var taps: set<string>
    var table: Table

    constructor (taps: set<string>, table: Table)
      ensures this.taps == taps && this.table == table
    {
      this.taps, this.table := taps, table;
    }

    /** One delete command per entry, in order. */
    method DeleteRules(rules: seq<Rule>)
      modifies this`table
      ensures table == DeleteAll(old(table), rules)
    {
      var i := 0;
      while i < |rules|
        invariant 0 <= i <= |rules|
        invariant DeleteAll(table, rules[i..]) == DeleteAll(old(table), rules)
      {
        assert rules[i..][1..] == rules[i + 1..];
        table := Delete(table, rules[i]);
        i := i + 1;
      }
    }
  }

  class IpRuleBook {
    var deleteArgs: seq<Rule>

    constructor ()
      ensures deleteArgs == []
    {
      deleteArgs := [];
    }

    /** `add_ip_rule_replace_first_arg`; whether the command succeeds is up to the system. */
    method AddIpRule(kernel: Kernel, kind: RuleKind, slot: Slot, succeeds: bool) returns (ok: bool)
      modifies this, kernel`table
      ensures ok == succeeds
      ensures if ok
              then kernel.table == Add(old(kernel.table), Args(kind, slot), AtHead(kind))
                   && deleteArgs == old(deleteArgs) + [Args(kind, slot)]
              else kernel.table == old(kernel.table) && deleteArgs == old(deleteArgs)
    {
      ok := succeeds;
      if !ok {
        return;
      }
      kernel.table := Add(kernel.table, Args(kind, slot), AtHead(kind));
      deleteArgs := deleteArgs + [Args(kind, slot)];
    }

    /** The `Drop` of a rule book: one delete command per entry, oldest first. */
    method Drop(kernel: Kernel)
      modifies kernel`table
      ensures kernel.table == DeleteAll(old(kernel.table), deleteArgs)
    {
      kernel.DeleteRules(deleteArgs);
    }
  }
}
