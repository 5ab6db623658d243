/** Which replies of the protocol are small enough to publish. */
module ReplySizes {
  import opened Text
  import opened Command
  import opened AlertStore
  import opened Rules
  import opened Wire
  import opened Transport
  import opened Outbox
  import opened Protocol
  import opened Durability
  import opened Safety
  import opened Replies
  import opened Requests

  lemma NoControlConcat(a: string, b: string)
    requires !HasControl(a) && !HasControl(b)
    ensures !HasControl(a + b)
  {
  }

  lemma KeyIsShort(key: string)
    requires BoundedDedupeKey(key)
    ensures !HasControl(ReplyKey(key)) && ByteLen(ReplyKey(key)) <= 134
  {
    ByteLenConcat("reply:", key);
    ByteLenAscii("reply:");
    assert forall i | 0 <= i < |key| :: IsDedupeChar(key[i]);
    NoControlConcat("reply:", key);
  }

  lemma TenantIsClean(tenant: string)
    requires BoundedTenant(tenant)
    ensures !HasControl(tenant)
  {
  }

  lemma Sandwich(a: string, b: string, c: string)
    requires !HasControl(a) && !HasControl(b) && !HasControl(c)
    ensures !HasControl(a + b + c) && ByteLen(a + b + c) == ByteLen(a) + ByteLen(b) + ByteLen(c)
  {
    NoControlConcat(a, b);
    NoControlConcat(a + b, c);
    ByteLenConcat(a + b, c);
    ByteLenConcat(a, b);
  }

  lemma PrefixIsShort()
    ensures !HasControl("eal.event.") && ByteLen("eal.event.") == 10
  {
  }

  lemma SuffixIsShort()
    ensures !HasControl(".v1") && ByteLen(".v1") == 3
  {
  }

  lemma SubjectIsShort(tenant: string)
    requires !HasControl(tenant) && ByteLen(tenant) <= 64
    ensures !HasControl(ReplySubject(tenant)) && ByteLen(ReplySubject(tenant)) <= 256
  {
    PrefixIsShort();
    SuffixIsShort();
    Sandwich("eal.event.", tenant, ".v1");
  }

  lemma PairedEnvelopeIsShort(inbox: InboxRow, outbox: OutboxRow, row: StatusRow)
    requires Paired(inbox, outbox, row)
    ensures ShortEnvelope(outbox.payload)
  {
    KeyIsShort(inbox.dedupeKey);
    TenantIsClean(inbox.productTenant);
    SubjectIsShort(inbox.productTenant);
  }

  /**
   * With the server's own serialisation and alert rules stored by create requests, no completed reply
   * with at most seven rules is ever oversized, so none of them can block the outbox.
   */
  lemma SevenRuleRepliesArePublishable(cfg: Config, p: Printer, run: seq<Action>, i: nat)
    requires Bounded(p) && forall e :: cfg.size(e) == EventBytes(p, e)
    requires forall r | r in Run(cfg, run).alerts :: Storable(p, r.rule)
    requires i < |Run(cfg, run).tables.outbox|
    requires var reply := Run(cfg, run).tables.outbox[i].payload.reply;
             reply.result.Some? && |reply.result.value| <= 7
    ensures !Oversized(cfg.size, Run(cfg, run).tables.outbox[i])
  {
    var t, event := Run(cfg, run).tables, Run(cfg, run).tables.outbox[i].payload;
    var c, kind, n, w := RepliesShowOwnRules(cfg, run, i);
    RunSplits(cfg, run, n);
    PageIsStorable(p, Run(cfg, run[..n]).alerts, Run(cfg, run).alerts,
                   Actor(t.inbox[i].productTenant, t.inbox[i].actorSubject), event.reply.result.value);
    TablesCorrespond(cfg, run);
    PairedEnvelopeIsShort(t.inbox[i], t.outbox[i], t.status[t.inbox[i].correlationId]);
    SevenStoredRulesFit(p, event, event.reply.result.value);
  }

  lemma RunSplits(cfg: Config, run: seq<Action>, n: nat)
    requires n <= |run|
    ensures Extends(Run(cfg, run[..n]), Run(cfg, run))
  {
    assert run[..n] + run[n..] == run;
    RunConcat(cfg, INITIAL, run[..n], run[n..]);
    RunExtends(cfg, Run(cfg, run[..n]), run[n..]);
  }

  lemma PageIsStorable(p: Printer, table: seq<AlertRow>, later: seq<AlertRow>, actor: Actor, rules: seq<AlertRule>)
    requires table <= later && OwnPage(rules, actor, table)
    requires forall r | r in later :: Storable(p, r.rule)
    ensures forall i | 0 <= i < |rules| :: Storable(p, rules[i])
  {
    forall i | 0 <= i < |rules|
      ensures Storable(p, rules[i])
    {
      assert rules[i] in rules;
      assert AlertRow(actor, rules[i]) in later;
    }
  }
}
