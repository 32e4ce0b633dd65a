/** What the rules of nodemanager/src/networking.rs do to TCP packets. Rules are read from their texts, as
    iptables reads its arguments; in each chain the first rule that matches decides. An option that is
    not listed here is ignored, so a rule of the host is taken to match at least what it matches. */
module Forwarding {
  import opened Protocol
  import opened Text
  import opened Decimal
  import opened Slots
  import opened RuleTable

  datatype Connection = New | Established | Related

  /** One packet as it enters a chain; `outIf` is where routing sends it. */
  datatype Packet = Packet(inIf: string, outIf: string, src: Endpoint, dst: Endpoint, connection: Connection)

  function NameOf(c: Connection): string {
    match c
    case New => "NEW"
    case Established => "ESTABLISHED"
    case Related => "RELATED"
  }

  // ---- Reading a rule ----

  /** The options behind the chain's name, in pairs. */
  function Options(rule: Rule): map<string, string> {
    PairsFrom(rule, 1)
  }

  function PairsFrom(rule: Rule, i: nat): map<string, string>
    decreases |rule| - i
  {
    if i + 1 >= |rule| then map[] else PairsFrom(rule, i + 2)[rule[i] := rule[i + 1]]
  }

  predicate Fits(options: map<string, string>, flag: string, actual: string) {
    flag in options ==> options[flag] == actual
  }

  predicate OptionsMatch(o: map<string, string>, p: Packet) {
    && Fits(o, "-i", p.inIf) && Fits(o, "-o", p.outIf)
    && Fits(o, "-s", Dotted(p.src.addr))
    && Fits(o, "-p", "tcp") && Fits(o, "--sport", Print(p.src.port)) && Fits(o, "--dport", Print(p.dst.port))
    && ("--state" in o ==> NameOf(p.connection) in Split(o["--state"], ','))
  }

  /** The rule is in this chain of this table, and matches the packet. */
  predicate Hits(rule: Rule, chain: string, table: string, p: Packet) {
    && rule != [] && rule[0] == chain
    && (if "-t" in Options(rule) then Options(rule)["-t"] else "filter") == table
    && OptionsMatch(Options(rule), p)
  }

  function FirstHit(rules: Table, chain: string, table: string, p: Packet): Option<Rule> {
    if rules == [] then None
    else if Hits(rules[0], chain, table, p) then Some(rules[0])
    else FirstHit(rules[1..], chain, table, p)
  }

  predicate Jumps(rule: Rule, target: string) {
    "-j" in Options(rule) && Options(rule)["-j"] == target
  }

  function Destination(rule: Rule): Option<Endpoint> {
    if Jumps(rule, "DNAT") && "--to-destination" in Options(rule)
    then ParseEndpoint(Options(rule)["--to-destination"]) else None
  }

  /** The packet that opens a connection, behind the nat table's PREROUTING chain. */
  function Rewritten(rules: Table, p: Packet): Packet {
    match FirstHit(rules, "PREROUTING", "nat", p)
    case None => p
    case Some(rule) => if Destination(rule).Some? then p.(dst := Destination(rule).value) else p
  }

  /** The FORWARD chain lets the packet through by a rule. */
  predicate Accepted(rules: Table, p: Packet) {
    var hit := FirstHit(rules, "FORWARD", "filter", p);
    hit.Some? && Jumps(hit.value, "ACCEPT")
  }

  /** Packets leaving with this rule's match carry the host's own address. */
  predicate Masquerades(rule: Rule, p: Packet) {
    Hits(rule, "POSTROUTING", "nat", p) && Jumps(rule, "MASQUERADE")
  }

  // ---- First matches ----

  lemma {:induction false} FirstHitIs(rules: Table, chain: string, table: string, p: Packet)
    ensures var hit := FirstHit(rules, chain, table, p);
            && (hit.Some? ==> hit.value in rules && Hits(hit.value, chain, table, p))
            && (hit.None? ==> forall r :: r in rules ==> !Hits(r, chain, table, p))
  {
    if rules != [] {
      FirstHitIs(rules[1..], chain, table, p);
      assert forall r :: r in rules ==> r == rules[0] || r in rules[1..];
    }
  }

  lemma {:induction false} FirstHitOfConcat(a: Table, b: Table, chain: string, table: string, p: Packet)
    ensures FirstHit(a + b, chain, table, p) ==
            if FirstHit(a, chain, table, p).Some? then FirstHit(a, chain, table, p) else FirstHit(b, chain, table, p)
  {
    if a == [] {
      assert a + b == b;
    } else {
      assert (a + b)[0] == a[0] && (a + b)[1..] == a[1..] + b;
      FirstHitOfConcat(a[1..], b, chain, table, p);
    }
  }

  lemma FirstHitOfOne(rule: Rule, chain: string, table: string, p: Packet)
    ensures FirstHit([rule], chain, table, p) == if Hits(rule, chain, table, p) then Some(rule) else None
  {
    assert [rule][1..] == [];
  }

  // ---- What each rule of a stack means ----

  /** Characters that tell the flags apart. */
  lemma FlagsDiffer()
    ensures "-t"[1] == 't' && "-i"[1] == 'i' && "-o"[1] == 'o' && "-s"[1] == 's' && "-p"[1] == 'p'
    ensures "-m"[1] == 'm' && "-j"[1] == 'j'
    ensures "--dport"[2] == 'd' && "--sport"[2] == "--state"[2] == 's' && "--sport"[3] == 'p' && "--state"[3] == 't'
    ensures "PREROUTING"[1] == 'R' && "POSTROUTING"[1] == 'O' && |"PREROUTING"| != |"POSTROUTING"|
    ensures "filter"[0] == 'f' && "nat"[0] == 'n'
    ensures "DNAT"[0] == 'D' && "ACCEPT"[0] == 'A' && "MASQUERADE"[0] == 'M'
  {
  }

  lemma PairsStep(rule: Rule, i: nat)
    ensures PairsFrom(rule, i) == if i + 1 >= |rule| then map[] else PairsFrom(rule, i + 2)[rule[i] := rule[i + 1]]
  {
  }

  lemma MasqueradeOptions(outIf: string, slot: Slot)
    ensures var o := Options(Args(Masquerade(outIf), slot));
            && o.Keys == {"-t", "-o", "-s", "-j"}
            && o["-t"] == "nat" && o["-o"] == outIf && o["-s"] == Dotted(slot.ipv4Addr) && o["-j"] == "MASQUERADE"
  {
    var rule := Args(Masquerade(outIf), slot);
    FlagsDiffer();
    PairsStep(rule, 1); PairsStep(rule, 3); PairsStep(rule, 5); PairsStep(rule, 7); PairsStep(rule, 9);
  }

  lemma ForwardOutOptions(outIf: string, slot: Slot)
    ensures var o := Options(Args(ForwardOut(outIf), slot));
            && o.Keys == {"-i", "-o", "-j"}
            && o["-i"] == slot.tapDevName && o["-o"] == outIf && o["-j"] == "ACCEPT"
  {
    var rule := Args(ForwardOut(outIf), slot);
    FlagsDiffer();
    PairsStep(rule, 1); PairsStep(rule, 3); PairsStep(rule, 5); PairsStep(rule, 7);
  }

  lemma DnatOptions(inIf: string, hostPort: nat, guestPort: nat, slot: Slot)
    ensures var o := Options(Args(Dnat(inIf, hostPort, guestPort), slot));
            && o.Keys == {"-t", "-i", "-p", "--dport", "-j", "--to-destination"}
            && o["-t"] == "nat" && o["-i"] == inIf && o["-p"] == "tcp" && o["--dport"] == Print(hostPort)
            && o["-j"] == "DNAT" && o["--to-destination"] == Dotted(slot.ipv4Addr) + [':'] + Print(guestPort)
  {
    var rule := Args(Dnat(inIf, hostPort, guestPort), slot);
    FlagsDiffer();
    PairsStep(rule, 1); PairsStep(rule, 3); PairsStep(rule, 5); PairsStep(rule, 7); PairsStep(rule, 9);
    PairsStep(rule, 11); PairsStep(rule, 13);
  }

  lemma ForwardReplyOptions(inIf: string, guestPort: nat, slot: Slot)
    ensures var o := Options(Args(ForwardReply(inIf, guestPort), slot));
            && o.Keys == {"-i", "-o", "-p", "--sport", "-m", "--state", "-j"}
            && o["-i"] == slot.tapDevName && o["-o"] == inIf && o["-p"] == "tcp" && o["--sport"] == Print(guestPort)
            && o["--state"] == "ESTABLISHED,RELATED" && o["-j"] == "ACCEPT"
  {
    var rule := Args(ForwardReply(inIf, guestPort), slot);
    FlagsDiffer();
    PairsStep(rule, 1); PairsStep(rule, 3); PairsStep(rule, 5); PairsStep(rule, 7); PairsStep(rule, 9);
    PairsStep(rule, 11); PairsStep(rule, 13); PairsStep(rule, 15);
  }

  lemma ForwardNewOptions(inIf: string, guestPort: nat, slot: Slot)
    ensures var o := Options(Args(ForwardNew(inIf, guestPort), slot));
            && o.Keys == {"-i", "-o", "-p", "--dport", "-m", "--state", "-j"}
            && o["-i"] == inIf && o["-o"] == slot.tapDevName && o["-p"] == "tcp" && o["--dport"] == Print(guestPort)
            && o["--state"] == "NEW,ESTABLISHED,RELATED" && o["-j"] == "ACCEPT"
  {
    var rule := Args(ForwardNew(inIf, guestPort), slot);
    FlagsDiffer();
    PairsStep(rule, 1); PairsStep(rule, 3); PairsStep(rule, 5); PairsStep(rule, 7); PairsStep(rule, 9);
    PairsStep(rule, 11); PairsStep(rule, 13); PairsStep(rule, 15);
  }

  lemma ReplyStates()
    ensures Split("ESTABLISHED,RELATED", ',') == ["ESTABLISHED", "RELATED"]
  {
    JoinTwo("ESTABLISHED", "RELATED", ',');
    SplitOfJoin(["ESTABLISHED", "RELATED"], ',');
    assert "ESTABLISHED" + [','] + "RELATED" == "ESTABLISHED,RELATED";
  }

  lemma AllStates()
    ensures Split("NEW,ESTABLISHED,RELATED", ',') == ["NEW", "ESTABLISHED", "RELATED"]
  {
    assert ["NEW", "ESTABLISHED", "RELATED"][..2] == ["NEW", "ESTABLISHED"];
    JoinTwo("NEW", "ESTABLISHED", ',');
    SplitOfJoin(["NEW", "ESTABLISHED", "RELATED"], ',');
    assert "NEW" + [','] + "ESTABLISHED" + [','] + "RELATED" == "NEW,ESTABLISHED,RELATED";
  }

  /** The two lists of connection states. */
  lemma StateLists(c: Connection)
    ensures NameOf(c) in Split("ESTABLISHED,RELATED", ',') <==> c != New
    ensures NameOf(c) in Split("NEW,ESTABLISHED,RELATED", ',')
  {
    ReplyStates();
    AllStates();
    assert "NEW"[0] == 'N' && "ESTABLISHED"[0] == 'E' && "RELATED"[0] == 'R';
  }

  lemma SamePort(m: nat, n: nat)
    ensures Print(m) == Print(n) <==> m == n
  {
    if Print(m) == Print(n) {
      PrintInjective(m, n);
    }
  }

  /** A published port's first rule: a packet for the host port, and only such a packet, goes to the
      machine's address and the guest port. */
  lemma DnatMeans(inIf: string, hostPort: nat, guestPort: nat, slot: Slot, p: Packet)
    ensures var rule := Args(Dnat(inIf, hostPort, guestPort), slot);
            && (Hits(rule, "PREROUTING", "nat", p) <==> p.inIf == inIf && p.dst.port == hostPort)
            && !Hits(rule, "FORWARD", "filter", p) && !Hits(rule, "POSTROUTING", "nat", p)
            && Destination(rule) == Some(Endpoint(slot.ipv4Addr, guestPort))
  {
    DnatOptions(inIf, hostPort, guestPort, slot);
    FlagsDiffer();
    SamePort(hostPort, p.dst.port);
    ParsePrintedEndpoint(slot.ipv4Addr, guestPort);
  }

  lemma ForwardReplyMatch(inIf: string, guestPort: nat, slot: Slot, p: Packet)
    ensures OptionsMatch(Options(Args(ForwardReply(inIf, guestPort), slot)), p) <==>
            p.inIf == slot.tapDevName && p.outIf == inIf && p.src.port == guestPort && p.connection != New
  {
    ForwardReplyOptions(inIf, guestPort, slot);
    FlagsDiffer();
    SamePort(guestPort, p.src.port);
    StateLists(p.connection);
  }

  lemma ForwardNewMatch(inIf: string, guestPort: nat, slot: Slot, p: Packet)
    ensures OptionsMatch(Options(Args(ForwardNew(inIf, guestPort), slot)), p) <==>
            p.inIf == inIf && p.outIf == slot.tapDevName && p.dst.port == guestPort
  {
    ForwardNewOptions(inIf, guestPort, slot);
    FlagsDiffer();
    SamePort(guestPort, p.dst.port);
    StateLists(p.connection);
  }

  /** A rule of the filter table's FORWARD chain is in no other chain. */
  lemma OnlyInForward(rule: Rule, p: Packet)
    requires rule != [] && rule[0] == "FORWARD" && "-t" !in Options(rule)
    ensures Hits(rule, "FORWARD", "filter", p) <==> OptionsMatch(Options(rule), p)
    ensures !Hits(rule, "PREROUTING", "nat", p) && !Hits(rule, "POSTROUTING", "nat", p)
  {
    FlagsDiffer();
  }

  /** Its second rule lets the machine's replies out. */
  lemma ForwardReplyMeans(inIf: string, guestPort: nat, slot: Slot, p: Packet)
    ensures var rule := Args(ForwardReply(inIf, guestPort), slot);
            && (Hits(rule, "FORWARD", "filter", p) <==>
                  p.inIf == slot.tapDevName && p.outIf == inIf && p.src.port == guestPort && p.connection != New)
            && !Hits(rule, "PREROUTING", "nat", p) && !Hits(rule, "POSTROUTING", "nat", p)
            && Jumps(rule, "ACCEPT") && Destination(rule) == None
  {
    FlagsDiffer();
    ForwardReplyMatch(inIf, guestPort, slot, p);
    ForwardReplyOptions(inIf, guestPort, slot);
    OnlyInForward(Args(ForwardReply(inIf, guestPort), slot), p);
  }

  /** Its third rule lets rewritten packets in. */
  lemma ForwardNewMeans(inIf: string, guestPort: nat, slot: Slot, p: Packet)
    ensures var rule := Args(ForwardNew(inIf, guestPort), slot);
            && (Hits(rule, "FORWARD", "filter", p) <==>
                  p.inIf == inIf && p.outIf == slot.tapDevName && p.dst.port == guestPort)
            && !Hits(rule, "PREROUTING", "nat", p) && !Hits(rule, "POSTROUTING", "nat", p)
            && Jumps(rule, "ACCEPT") && Destination(rule) == None
  {
    FlagsDiffer();
    ForwardNewMatch(inIf, guestPort, slot, p);
    ForwardNewOptions(inIf, guestPort, slot);
    OnlyInForward(Args(ForwardNew(inIf, guestPort), slot), p);
  }

  lemma ForwardOutMeans(outIf: string, slot: Slot, p: Packet)
    ensures var rule := Args(ForwardOut(outIf), slot);
            && (Hits(rule, "FORWARD", "filter", p) <==> p.inIf == slot.tapDevName && p.outIf == outIf)
            && !Hits(rule, "PREROUTING", "nat", p) && !Hits(rule, "POSTROUTING", "nat", p)
            && Jumps(rule, "ACCEPT") && Destination(rule) == None
  {
    ForwardOutOptions(outIf, slot);
    FlagsDiffer();
  }

  lemma MasqueradeMeans(outIf: string, slot: Slot, p: Packet)
    ensures var rule := Args(Masquerade(outIf), slot);
            && (Masquerades(rule, p) <==> p.outIf == outIf && p.src.addr == slot.ipv4Addr)
            && !Hits(rule, "PREROUTING", "nat", p) && !Hits(rule, "FORWARD", "filter", p)
            && Destination(rule) == None
  {
    MasqueradeOptions(outIf, slot);
    FlagsDiffer();
    if Dotted(p.src.addr) == Dotted(slot.ipv4Addr) {
      DottedInjective(p.src.addr, slot.ipv4Addr);
    }
  }

  /** Every rule of a stack, in short: it rewrites only to its own slot, and in FORWARD it accepts. */
  lemma StackRuleMeans(kind: RuleKind, slot: Slot, p: Packet)
    ensures var rule := Args(kind, slot);
            && (Hits(rule, "PREROUTING", "nat", p) ==> kind.Dnat?)
            && (Destination(rule).Some? ==> Destination(rule).value.addr == slot.ipv4Addr)
            && (Hits(rule, "FORWARD", "filter", p) ==>
                  Jumps(rule, "ACCEPT") && (p.inIf == slot.tapDevName || p.outIf == slot.tapDevName))
  {
    match kind
    case Masquerade(outIf) => MasqueradeMeans(outIf, slot, p);
    case ForwardOut(outIf) => ForwardOutMeans(outIf, slot, p);
    case Dnat(inIf, hostPort, guestPort) => DnatMeans(inIf, hostPort, guestPort, slot, p);
    case ForwardReply(inIf, guestPort) => ForwardReplyMeans(inIf, guestPort, slot, p);
    case ForwardNew(inIf, guestPort) => ForwardNewMeans(inIf, guestPort, slot, p);
  }

  // ---- One publication ----

  /** The table after the three commands of `setup_forwarding`. */
  function Published(rules: Table, slot: Slot, inIf: string, hostPort: nat, guestPort: nat): Table {
    var dnat, reply, inward := Dnat(inIf, hostPort, guestPort), ForwardReply(inIf, guestPort), ForwardNew(inIf, guestPort);
    Add(Add(Add(rules, Args(dnat, slot), AtHead(dnat)), Args(reply, slot), AtHead(reply)), Args(inward, slot), AtHead(inward))
  }

  lemma PublishedHit(rules: Table, slot: Slot, inIf: string, hostPort: nat, guestPort: nat, chain: string, table: string,
                     p: Packet)
    ensures var dnat, reply, inward := Args(Dnat(inIf, hostPort, guestPort), slot),
              Args(ForwardReply(inIf, guestPort), slot), Args(ForwardNew(inIf, guestPort), slot);
            FirstHit(Published(rules, slot, inIf, hostPort, guestPort), chain, table, p) ==
            if Hits(inward, chain, table, p) then Some(inward)
            else if Hits(reply, chain, table, p) then Some(reply)
            else if FirstHit(rules, chain, table, p).Some? then FirstHit(rules, chain, table, p)
            else if Hits(dnat, chain, table, p) then Some(dnat) else None
  {
    var dnat, reply, inward := Args(Dnat(inIf, hostPort, guestPort), slot),
      Args(ForwardReply(inIf, guestPort), slot), Args(ForwardNew(inIf, guestPort), slot);
    FirstHitOfConcat(rules, [dnat], chain, table, p);
    FirstHitOfOne(dnat, chain, table, p);
    FirstHitOfConcat([reply], rules + [dnat], chain, table, p);
    FirstHitOfOne(reply, chain, table, p);
    FirstHitOfConcat([inward], [reply] + (rules + [dnat]), chain, table, p);
    FirstHitOfOne(inward, chain, table, p);
  }

  /** After a publication a packet for the host port that no earlier rule claims goes to the machine and the
      guest port, and is let through to its tap device. */
  lemma PublishedPortReachesTheMachine(rules: Table, slot: Slot, inIf: string, hostPort: nat, guestPort: nat, p: Packet)
    requires p.inIf == inIf && p.dst.port == hostPort && FirstHit(rules, "PREROUTING", "nat", p) == None
    ensures var after := Published(rules, slot, inIf, hostPort, guestPort);
            && Rewritten(after, p) == p.(dst := Endpoint(slot.ipv4Addr, guestPort))
            && Accepted(after, Rewritten(after, p).(outIf := slot.tapDevName))
  {
    PublishedHit(rules, slot, inIf, hostPort, guestPort, "PREROUTING", "nat", p);
    DnatMeans(inIf, hostPort, guestPort, slot, p);
    ForwardReplyMeans(inIf, guestPort, slot, p);
    ForwardNewMeans(inIf, guestPort, slot, p);
    var q := p.(dst := Endpoint(slot.ipv4Addr, guestPort), outIf := slot.tapDevName);
    PublishedHit(rules, slot, inIf, hostPort, guestPort, "FORWARD", "filter", q);
    ForwardNewMeans(inIf, guestPort, slot, q);
  }

  /** ... and the machine's replies are let out. */
  lemma RepliesAreLetOut(rules: Table, slot: Slot, inIf: string, hostPort: nat, guestPort: nat, r: Packet)
    requires r.inIf == slot.tapDevName && r.outIf == inIf && r.src.port == guestPort && r.connection != New
    ensures Accepted(Published(rules, slot, inIf, hostPort, guestPort), r)
  {
    PublishedHit(rules, slot, inIf, hostPort, guestPort, "FORWARD", "filter", r);
    ForwardReplyMeans(inIf, guestPort, slot, r);
    ForwardNewMeans(inIf, guestPort, slot, r);
  }

  /** Nothing else changes: other packets are rewritten as before, and other packets between interfaces
      are decided by the same rule as before. */
  lemma OtherPacketsAreUnaffected(rules: Table, slot: Slot, inIf: string, hostPort: nat, guestPort: nat, p: Packet)
    ensures var after := Published(rules, slot, inIf, hostPort, guestPort);
            && (!(p.inIf == inIf && p.dst.port == hostPort) ==> Rewritten(after, p) == Rewritten(rules, p))
            && (!(p.inIf == inIf && p.outIf == slot.tapDevName && p.dst.port == guestPort)
                && !(p.inIf == slot.tapDevName && p.outIf == inIf && p.src.port == guestPort && p.connection != New) ==>
                  FirstHit(after, "FORWARD", "filter", p) == FirstHit(rules, "FORWARD", "filter", p))
  {
    PublishedHit(rules, slot, inIf, hostPort, guestPort, "PREROUTING", "nat", p);
    PublishedHit(rules, slot, inIf, hostPort, guestPort, "FORWARD", "filter", p);
    DnatMeans(inIf, hostPort, guestPort, slot, p);
    ForwardReplyMeans(inIf, guestPort, slot, p);
    ForwardNewMeans(inIf, guestPort, slot, p);
  }
}
