/**
 * Permission fold: each permission event diffs the links (public key,
 * account, permission) its old snapshot grants against those its new
 * snapshot grants; links only in the new one are written as linked, links
 * only in the old one as unlinked. Across the block the last intent on a
 * link wins.
 */
module KeyAccounts {
  import opened Events
  import opened Keyed

  /** A link between a public key and a named permission of an account. */
  datatype LinkKey = LinkKey(publicKey: string, account: Name, permission: Name)

  function RowKey(row: KeyAccountRow): LinkKey
  {
    LinkKey(row.publicKey, row.account, row.permission)
  }

  function LinkRow(l: LinkKey, deleted: bool): (row: KeyAccountRow)
    ensures RowKey(row) == l && row.deleted == deleted
  {
    KeyAccountRow(l.publicKey, l.account, l.permission, deleted)
  }

  /** The links an authority grants on permission name of owner, one per authorized key, in order. */
  function LinksOf(owner: Name, name: Name, keys: seq<KeyWeight>): (ls: seq<LinkKey>)
    ensures |ls| == |keys|
    ensures forall i :: 0 <= i < |keys| ==> ls[i] == LinkKey(keys[i].publicKey, owner, name)
  {
    if keys == [] then [] else LinksOf(owner, name, keys[..|keys| - 1]) + [LinkKey(keys[|keys| - 1].publicKey, owner, name)]
  }

  /** The links a snapshot grants; an absent snapshot grants none. */
  function Links(p: Option<PermissionObject>): seq<LinkKey>
  {
    if p.None? then [] else LinksOf(p.value.owner, p.value.name, p.value.keys)
  }

  /** One intent, flagged deleted, for each link of xs that ys lacks, in the order of xs. */
  function Diff(xs: seq<LinkKey>, ys: seq<LinkKey>, deleted: bool): (rows: seq<KeyAccountRow>)
    ensures forall r :: r in rows <==> RowKey(r) in xs && RowKey(r) !in ys && r.deleted == deleted
  {
    if xs == [] then []
    else
      var x := xs[|xs| - 1];
      assert xs == xs[..|xs| - 1] + [x];
      Diff(xs[..|xs| - 1], ys, deleted) + (if x in ys then [] else [LinkRow(x, deleted)])
  }

  /**
   * The intents of one permission event: links the old snapshot grants and
   * the new one does not become deleted, links the new one grants and the
   * old one does not become linked, links both grant produce nothing.
   */
  function IntentsOf(e: PermOp): seq<KeyAccountRow>
  {
    Diff(Links(e.oldPerm), Links(e.newPerm), true) + Diff(Links(e.newPerm), Links(e.oldPerm), false)
  }

  /**
   * An event intends to unlink exactly the links only its old snapshot
   * grants, and to link exactly those only its new snapshot grants.
   */
  lemma {:induction false} IntentsMeaning(e: PermOp, r: KeyAccountRow)
    ensures r in IntentsOf(e) <==>
      if r.deleted then RowKey(r) in Links(e.oldPerm) && RowKey(r) !in Links(e.newPerm)
      else RowKey(r) in Links(e.newPerm) && RowKey(r) !in Links(e.oldPerm)
  {
  }

  /** The public keys an authority lists, in order. */
  function PublicKeys(keys: seq<KeyWeight>): (pks: seq<string>)
    ensures |pks| == |keys|
    ensures forall i :: 0 <= i < |keys| ==> pks[i] == keys[i].publicKey
  {
    if keys == [] then [] else PublicKeys(keys[..|keys| - 1]) + [keys[|keys| - 1].publicKey]
  }

  /** A snapshot links a key to its own permission exactly when its authority lists that key. */
  lemma {:induction false} LinksOfKeys(owner: Name, name: Name, keys: seq<KeyWeight>, l: LinkKey)
    ensures l in LinksOf(owner, name, keys) <==>
      l.account == owner && l.permission == name && l.publicKey in PublicKeys(keys)
  {
    var ls, pks := LinksOf(owner, name, keys), PublicKeys(keys);
    if l in ls {
      var i :| 0 <= i < |ls| && ls[i] == l;
      assert pks[i] == l.publicKey;
    }
    if l.account == owner && l.permission == name && l.publicKey in pks {
      var i :| 0 <= i < |pks| && pks[i] == l.publicKey;
      assert ls[i] == l;
    }
  }

  /**
   * When both snapshots are of the same permission, the link diff is the
   * diff of their key sets: keys only the old authority lists are unlinked,
   * keys only the new one lists are linked, all on that permission.
   */
  lemma {:induction false} SamePermissionKeyDiff(e: PermOp, r: KeyAccountRow)
    requires e.oldPerm.Some? && e.newPerm.Some?
    requires e.oldPerm.value.owner == e.newPerm.value.owner && e.oldPerm.value.name == e.newPerm.value.name
    ensures r in IntentsOf(e) <==>
      r.account == e.newPerm.value.owner && r.permission == e.newPerm.value.name &&
      if r.deleted then r.publicKey in PublicKeys(e.oldPerm.value.keys) && r.publicKey !in PublicKeys(e.newPerm.value.keys)
      else r.publicKey in PublicKeys(e.newPerm.value.keys) && r.publicKey !in PublicKeys(e.oldPerm.value.keys)
  {
    var o, n := e.oldPerm.value, e.newPerm.value;
    IntentsMeaning(e, r);
    LinksOfKeys(o.owner, o.name, o.keys, RowKey(r));
    LinksOfKeys(n.owner, n.name, n.keys, RowKey(r));
  }

  /**
   * With one snapshot absent, an event intends exactly one link per key of
   * the present snapshot's authority: linked when only the new snapshot is
   * there, unlinked when only the old one is.
   */
  lemma {:induction false} OneSnapshotIntents(e: PermOp, r: KeyAccountRow)
    requires e.oldPerm.None? != e.newPerm.None?
    ensures var p := if e.newPerm.Some? then e.newPerm.value else e.oldPerm.value;
      r in IntentsOf(e) <==>
        r.account == p.owner && r.permission == p.name && r.publicKey in PublicKeys(p.keys) &&
        r.deleted == e.newPerm.None?
  {
    var p := if e.newPerm.Some? then e.newPerm.value else e.oldPerm.value;
    IntentsMeaning(e, r);
    LinksOfKeys(p.owner, p.name, p.keys, RowKey(r));
  }

  /**
   * Across two different permissions the link diff is not the key-set diff:
   * every key the old authority lists is unlinked from the old permission
   * and every key the new one lists is linked to the new permission, even
   * the keys both list.
   */
  lemma {:induction false} RenamedPermissionRelinks(e: PermOp, r: KeyAccountRow)
    requires e.oldPerm.Some? && e.newPerm.Some?
    requires e.oldPerm.value.owner != e.newPerm.value.owner || e.oldPerm.value.name != e.newPerm.value.name
    ensures var p := if r.deleted then e.oldPerm.value else e.newPerm.value;
      r in IntentsOf(e) <==> r.account == p.owner && r.permission == p.name && r.publicKey in PublicKeys(p.keys)
  {
    var o, n := e.oldPerm.value, e.newPerm.value;
    IntentsMeaning(e, r);
    LinksOfKeys(o.owner, o.name, o.keys, RowKey(r));
    LinksOfKeys(n.owner, n.name, n.keys, RowKey(r));
  }

  /** Every intent of an event on a link carries the same flag: unlinked exactly when the new snapshot lacks the link. */
  lemma {:induction false} IntentFlag(e: PermOp, r: KeyAccountRow)
    requires r in IntentsOf(e)
    ensures r == if RowKey(r) in Links(e.newPerm) then LinkRow(RowKey(r), false) else LinkRow(RowKey(r), true)
  {
    IntentsMeaning(e, r);
  }

  /** The intents of all events, in block order. */
  function AllIntents(ops: seq<PermOp>): seq<KeyAccountRow>
  {
    if ops == [] then [] else AllIntents(ops[..|ops| - 1]) + IntentsOf(ops[|ops| - 1])
  }

  lemma {:induction false} AllIntentsSnoc(ops: seq<PermOp>, e: PermOp)
    ensures AllIntents(ops + [e]) == AllIntents(ops) + IntentsOf(e)
  {
    assert (ops + [e])[..|ops|] == ops;
  }

  lemma {:induction false} AllIntentsAppend(a: seq<PermOp>, b: seq<PermOp>)
    ensures AllIntents(a + b) == AllIntents(a) + AllIntents(b)
  {
    if b != [] {
      var b', e := b[..|b| - 1], b[|b| - 1];
      assert b == b' + [e];
      assert a + b == (a + b') + [e];
      AllIntentsAppend(a, b');
      AllIntentsSnoc(a + b', e);
      AllIntentsSnoc(b', e);
    } else {
      assert a + b == a;
    }
  }

  /** The link of every intent, in order. */
  function LinkKeys(intents: seq<KeyAccountRow>): (ks: seq<LinkKey>)
    ensures |ks| == |intents|
    ensures forall i :: 0 <= i < |intents| ==> ks[i] == RowKey(intents[i])
  {
    if intents == [] then [] else LinkKeys(intents[..|intents| - 1]) + [RowKey(intents[|intents| - 1])]
  }

  /** The fold state after intents: links in first-seen order and the last intent on each. */
  function Scan(intents: seq<KeyAccountRow>): (seq<LinkKey>, map<LinkKey, KeyAccountRow>)
  {
    if intents == [] then ([], map[])
    else
      var (order, last) := Scan(intents[..|intents| - 1]);
      var r := intents[|intents| - 1];
      (if RowKey(r) in last then order else order + [RowKey(r)], last[RowKey(r) := r])
  }

  lemma {:induction false} ScanSnoc(intents: seq<KeyAccountRow>, r: KeyAccountRow)
    ensures Scan(intents + [r]) ==
      (if RowKey(r) in Scan(intents).1 then Scan(intents).0 else Scan(intents).0 + [RowKey(r)],
       Scan(intents).1[RowKey(r) := r])
  {
    assert (intents + [r])[..|intents|] == intents;
  }

  /** The fold keeps each link once, in first-seen order, with its last intent. */
  lemma {:induction false} ScanMeaning(intents: seq<KeyAccountRow>)
    ensures Scan(intents).0 == FirstSeen(LinkKeys(intents))
    ensures Scan(intents).1 == LastWins(LinkKeys(intents), intents)
  {
    if intents != [] {
      var prefix, r := intents[..|intents| - 1], intents[|intents| - 1];
      assert intents == prefix + [r];
      ScanMeaning(prefix);
      ScanSnoc(prefix, r);
      assert LinkKeys(intents) == LinkKeys(prefix) + [RowKey(r)];
      FirstSeenSnoc(LinkKeys(prefix), RowKey(r));
      LastWinsSnoc(LinkKeys(prefix), prefix, RowKey(r), r);
    }
  }

  /** The last intent of each link of order, in that order. */
  function EmitLinks(order: seq<LinkKey>, last: map<LinkKey, KeyAccountRow>): (rows: seq<KeyAccountRow>)
    requires forall l :: l in order ==> l in last
    ensures |rows| == |order|
    ensures forall i :: 0 <= i < |order| ==> rows[i] == last[order[i]]
  {
    if order == [] then []
    else EmitLinks(order[..|order| - 1], last) + [last[order[|order| - 1]]]
  }

  /** The KeyAccounts collection of the WriteRequest for the block's permission events. */
  function KeyAccountRows(ops: seq<PermOp>): seq<KeyAccountRow>
  {
    ScanMeaning(AllIntents(ops));
    EmitLinks(Scan(AllIntents(ops)).0, Scan(AllIntents(ops)).1)
  }

  lemma {:induction false} EmitLinksOn(order: seq<LinkKey>, last: map<LinkKey, KeyAccountRow>, l: LinkKey)
    requires Distinct(order)
    requires forall l' :: l' in order ==> l' in last && RowKey(last[l']) == l'
    ensures RowsOn(EmitLinks(order, last), RowKey, l) == if l in order then [last[l]] else []
  {
    if order != [] {
      var prefix, x := order[..|order| - 1], order[|order| - 1];
      assert order == prefix + [x];
      EmitLinksOn(prefix, last, l);
      EmitLinksSnoc(prefix, x, last);
      RowsOnSnoc(EmitLinks(prefix, last), last[x], RowKey, l);
    }
  }

  lemma {:induction false} EmitLinksSnoc(order: seq<LinkKey>, l: LinkKey, last: map<LinkKey, KeyAccountRow>)
    requires forall l' :: l' in order ==> l' in last
    requires l in last
    ensures EmitLinks(order + [l], last) == EmitLinks(order, last) + [last[l]]
  {
    assert (order + [l])[..|order|] == order;
  }

  /**
   * Last intent wins: the rows about link l are one row carrying the flag
   * of the last intent on l when some event had an intent on l, and none
   * otherwise.
   */
  lemma {:induction false} KeyAccountRowsOn(ops: seq<PermOp>, l: LinkKey)
    ensures var intents := AllIntents(ops);
      RowsOn(KeyAccountRows(ops), RowKey, l) ==
        if l in LinkKeys(intents) then [intents[LastIndex(LinkKeys(intents), l)]] else []
  {
    ScanMeaning(AllIntents(ops));
    EmitLinksOn(Scan(AllIntents(ops)).0, Scan(AllIntents(ops)).1, l);
  }

  lemma {:induction false} LinkKeysAppend(a: seq<KeyAccountRow>, b: seq<KeyAccountRow>)
    ensures LinkKeys(a + b) == LinkKeys(a) + LinkKeys(b)
  {
  }

  /**
   * A later event overrides: once an event has an intent on link l, the
   * block's row for l is the one that event decides, whatever came before.
   */
  lemma {:induction false} LaterEventOverrides(ops: seq<PermOp>, e: PermOp, l: LinkKey)
    requires l in LinkKeys(IntentsOf(e))
    ensures RowsOn(KeyAccountRows(ops + [e]), RowKey, l) ==
      if l in Links(e.newPerm) then [LinkRow(l, false)] else [LinkRow(l, true)]
  {
    var before, mine := AllIntents(ops), IntentsOf(e);
    AllIntentsSnoc(ops, e);
    LinkKeysAppend(before, mine);
    KeyAccountRowsOn(ops + [e], l);
    LastIndexAppendRight(LinkKeys(before), LinkKeys(mine), l);
    var i := LastIndex(LinkKeys(mine), l);
    assert (before + mine)[|before| + i] == mine[i];
    IntentFlag(e, mine[i]);
  }

  /** An event with no intent on link l leaves the block's row for l as it was. */
  lemma {:induction false} UntouchedLinkKeepsIntent(ops: seq<PermOp>, e: PermOp, l: LinkKey)
    requires l !in LinkKeys(IntentsOf(e))
    ensures RowsOn(KeyAccountRows(ops + [e]), RowKey, l) == RowsOn(KeyAccountRows(ops), RowKey, l)
  {
    var before, mine := AllIntents(ops), IntentsOf(e);
    AllIntentsSnoc(ops, e);
    LinkKeysAppend(before, mine);
    KeyAccountRowsOn(ops + [e], l);
    KeyAccountRowsOn(ops, l);
    if l in LinkKeys(before) {
      LastIndexAppendLeft(LinkKeys(before), LinkKeys(mine), l);
      var i := LastIndex(LinkKeys(before), l);
      assert (before + mine)[i] == before[i];
    }
  }

  /** The reducer's permission pass: scan every event's intents in block order, then write one row per link. */
  method ReduceKeyAccounts(traces: seq<TransactionTrace>) returns (rows: seq<KeyAccountRow>)
    ensures rows == KeyAccountRows(PermOpsOf(traces))
  {
    var order, last := ScanKeyAccounts(traces);
    ScanMeaning(AllIntents(PermOpsOf(traces)));
    rows := EmitKeyAccounts(order, last);
  }

  /** Writes the last intent of every link, in first-seen order. */
  method EmitKeyAccounts(order: seq<LinkKey>, last: map<LinkKey, KeyAccountRow>) returns (rows: seq<KeyAccountRow>)
    requires forall l :: l in order ==> l in last
    ensures rows == EmitLinks(order, last)
  {
    rows := [];
    for i := 0 to |order|
      invariant rows == EmitLinks(order[..i], last)
    {
      SliceSnoc(order, i);
      EmitLinksSnoc(order[..i], order[i], last);
      rows := rows + [last[order[i]]];
    }
    SliceAll(order);
  }

  /** One scan over the intents of the block's permission events. */
  method ScanKeyAccounts(traces: seq<TransactionTrace>) returns (order: seq<LinkKey>, last: map<LinkKey, KeyAccountRow>)
    ensures (order, last) == Scan(AllIntents(PermOpsOf(traces)))
  {
    order, last := [], map[];
    for t := 0 to |traces|
      invariant (order, last) == Scan(AllIntents(PermOpsOf(traces[..t])))
    {
      order, last := ScanTrace(order, last, AllIntents(PermOpsOf(traces[..t])), traces[t].permOps);
      EventsOfNextTrace(traces, t);
      AllIntentsAppend(PermOpsOf(traces[..t]), traces[t].permOps);
    }
    SliceAll(traces);
  }

  /** Records the intents of one transaction's permission events on top of the state left by the earlier ones. */
  method ScanTrace(order0: seq<LinkKey>, last0: map<LinkKey, KeyAccountRow>, ghost before: seq<KeyAccountRow>, ops: seq<PermOp>)
    returns (order: seq<LinkKey>, last: map<LinkKey, KeyAccountRow>)
    requires (order0, last0) == Scan(before)
    ensures (order, last) == Scan(before + AllIntents(ops))
  {
    order, last := order0, last0;
    assert before + AllIntents(ops[..0]) == before;
    for i := 0 to |ops|
      invariant (order, last) == Scan(before + AllIntents(ops[..i]))
    {
      SliceSnoc(ops, i);
      AllIntentsSnoc(ops[..i], ops[i]);
      var mine := IntentsOf(ops[i]);
      order, last := ApplyIntents(order, last, before + AllIntents(ops[..i]), mine);
      AppendAssoc(before, AllIntents(ops[..i]), mine);
    }
    SliceAll(ops);
  }

  /** Records the intents of one event on top of the state left by the earlier ones. */
  method ApplyIntents(order0: seq<LinkKey>, last0: map<LinkKey, KeyAccountRow>, ghost before: seq<KeyAccountRow>, intents: seq<KeyAccountRow>)
    returns (order: seq<LinkKey>, last: map<LinkKey, KeyAccountRow>)
    requires (order0, last0) == Scan(before)
    ensures (order, last) == Scan(before + intents)
  {
    order, last := order0, last0;
    assert before + intents[..0] == before;
    for j := 0 to |intents|
      invariant (order, last) == Scan(before + intents[..j])
    {
      assert before + intents[..j + 1] == (before + intents[..j]) + [intents[j]];
      ScanSnoc(before + intents[..j], intents[j]);
      var l := RowKey(intents[j]);
      if l !in last {
        order := order + [l];
      }
      last := last[l := intents[j]];
    }
    assert intents[..|intents|] == intents;
  }
}
