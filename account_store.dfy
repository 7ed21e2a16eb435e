// The persisted account list (the "accounts_list" configuration key) and
// the operations of the account API that read and rewrite it: add, delete
// with promotion of a new default, modify, toggle-active, set-default and
// the first-match lookups. The list is kept as the stored strings and each
// operation walks it the way the C code walks its GSList.

module AccountStore {
  import opened Base
  import opened Text
  import opened Accounts

  /**
   * Reading a stored line. Every line this code writes has twelve fields,
   * so the ID a parse would generate for a short line is never used; ""
   * stands for it.
   */
  function Read(e: string): Account
  {
    Parse(e, "")
  }

  /** Line `i` is the text of account `i`, which is well formed. */
  ghost predicate LineHolds(entries: seq<string>, accounts: seq<Account>, i: int)
  {
    0 <= i < |entries| && i < |accounts| && WellFormed(accounts[i]) && entries[i] == Serialize(accounts[i])
  }

  /** The stored lines are the texts of the accounts, each well formed, with distinct IDs. */
  ghost predicate Stores(entries: seq<string>, accounts: seq<Account>)
  {
    |entries| == |accounts|
    && (forall i {:trigger LineHolds(entries, accounts, i)} :: 0 <= i < |entries| ==> LineHolds(entries, accounts, i))
    && DistinctIds(accounts)
  }

  /** Rewriting line `k` with an account of the same ID keeps the relation. */
  lemma StoresUpdate(entries: seq<string>, accounts: seq<Account>, k: nat, a: Account)
    requires Stores(entries, accounts) && k < |entries|
    requires WellFormed(a) && a.aid == accounts[k].aid
    ensures Stores(entries[k := Serialize(a)], accounts[k := a])
  {
    var e := entries[k := Serialize(a)];
    var v := accounts[k := a];
    forall i | 0 <= i < |e| ensures LineHolds(e, v, i) {
      if i != k { assert LineHolds(entries, accounts, i); }
    }
    assert forall j :: 0 <= j < |v| ==> v[j].aid == accounts[j].aid;
  }

  /** Appending a well-formed account with a new ID keeps the relation. */
  lemma StoresAppend(entries: seq<string>, accounts: seq<Account>, a: Account)
    requires Stores(entries, accounts) && WellFormed(a) && !HasId(accounts, a.aid)
    ensures Stores(entries + [Serialize(a)], accounts + [a])
  {
    var e := entries + [Serialize(a)];
    var v := accounts + [a];
    forall i | 0 <= i < |e| ensures LineHolds(e, v, i) {
      if i < |entries| { assert LineHolds(entries, accounts, i); }
    }
  }

  /** Removing line `k` keeps the relation. */
  lemma StoresRemove(entries: seq<string>, accounts: seq<Account>, k: nat)
    requires Stores(entries, accounts) && k < |entries|
    ensures Stores(entries[..k] + entries[k + 1..], accounts[..k] + accounts[k + 1..])
  {
    var e := entries[..k] + entries[k + 1..];
    var v := accounts[..k] + accounts[k + 1..];
    forall i | 0 <= i < |e| ensures LineHolds(e, v, i) {
      if i < k { assert LineHolds(entries, accounts, i); } else { assert LineHolds(entries, accounts, i + 1); }
    }
    forall i, j | 0 <= i < j < |v| ensures v[i].aid != v[j].aid {
      var i' := if i < k then i else i + 1;
      var j' := if j < k then j else j + 1;
      assert v[i] == accounts[i'] && v[j] == accounts[j'];
    }
  }

  predicate DistinctIds(v: seq<Account>)
  {
    forall i, j :: 0 <= i < j < |v| ==> v[i].aid != v[j].aid
  }

  predicate HasId(v: seq<Account>, aid: string)
  {
    exists i :: 0 <= i < |v| && v[i].aid == aid
  }

  /** The first index at or after `k` holding the ID `aid`. */
  function IndexOfId(v: seq<Account>, aid: string, k: nat): (r: Option<nat>)
    decreases |v| - k
    ensures r.Some? ==> k <= r.value < |v| && v[r.value].aid == aid
    ensures r.Some? ==> forall j :: k <= j < r.value ==> v[j].aid != aid
    ensures r.None? ==> forall j :: k <= j < |v| ==> v[j].aid != aid
  {
    if k >= |v| then None else if v[k].aid == aid then Some(k) else IndexOfId(v, aid, k + 1)
  }

  /** With distinct IDs, an entry carries the ID exactly when it is the first to. */
  lemma IndexOfDistinctId(v: seq<Account>, aid: string, i: nat)
    requires DistinctIds(v) && i < |v|
    ensures IndexOfId(v, aid, 0) == Some(i) <==> v[i].aid == aid
  {
    if v[i].aid == aid {
      var k := IndexOfId(v, aid, 0);
      assert k.Some? && k.value <= i;
    }
  }

  /** At most one default account per protocol. */
  predicate OneDefaultPerProtocol(v: seq<Account>)
  {
    forall i, j :: 0 <= i < j < |v| && v[i].isDefault && v[j].isDefault ==> v[i].protocolName != v[j].protocolName
  }

  // ---- add ----

  /** The account as add stores it: the only account of an empty list is made the default. */
  function AddedAccount(v: seq<Account>, a: Account): Account
  {
    if v == [] then a.(isDefault := true) else a
  }

  function ClearDefaults(v: seq<Account>): (r: seq<Account>)
    ensures |r| == |v|
    ensures forall i :: 0 <= i < |v| ==> r[i] == v[i].(isDefault := false)
  {
    seq(|v|, i requires 0 <= i < |v| => v[i].(isDefault := false))
  }

  /**
   * The list after add: when the stored account is the default, every
   * existing entry (of any protocol) loses its default flag; the account is
   * appended at the end.
   */
  function Added(v: seq<Account>, a: Account): (r: seq<Account>)
    ensures |r| == |v| + 1 && r[|v|] == AddedAccount(v, a)
  {
    var stored := AddedAccount(v, a);
    (if stored.isDefault then ClearDefaults(v) else v) + [stored]
  }

  /** After adding a default account it is the single default of the whole list. */
  lemma AddedDefaultIsOnlyDefault(v: seq<Account>, a: Account)
    requires AddedAccount(v, a).isDefault
    ensures forall i :: 0 <= i < |v| + 1 ==> (Added(v, a)[i].isDefault <==> i == |v|)
    ensures OneDefaultPerProtocol(Added(v, a))
  {
  }

  /** Adding a non-default account to a non-empty list changes no existing entry. */
  lemma AddedNonDefaultKeepsEntries(v: seq<Account>, a: Account)
    requires v != [] && !a.isDefault
    ensures Added(v, a) == v + [a]
  {
  }

  /** Both kinds of add keep at most one default per protocol when the list had that. */
  lemma AddedKeepsOneDefault(v: seq<Account>, a: Account)
    requires OneDefaultPerProtocol(v)
    requires !AddedAccount(v, a).isDefault
    ensures OneDefaultPerProtocol(Added(v, a))
  {
  }

  /**
   * The header promises that an added account becomes the default when
   * its protocol has none yet; the code does so only for an empty list:
   * a SIP account added beside an H.323 default stays a non-default.
   */
  lemma AddDoesNotDefaultNewProtocol()
    ensures var h := NewAccount("h").(protocolName := Some("H323"), isDefault := true);
            var s := NewAccount("s").(protocolName := Some("SIP"));
            var r := Added([h], s);
            forall i :: 0 <= i < |r| && r[i].protocolName == Some("SIP") ==> !r[i].isDefault
  {
    var h := NewAccount("h").(protocolName := Some("H323"), isDefault := true);
    var s := NewAccount("s").(protocolName := Some("SIP"));
    var r := Added([h], s);
    assert r == [h, s];
  }

  /** A default added for one protocol clears the default of another protocol too. */
  lemma AddDefaultClearsOtherProtocols()
    ensures var h := NewAccount("h").(protocolName := Some("H323"), isDefault := true);
            var s := NewAccount("s").(protocolName := Some("SIP"), isDefault := true);
            !Added([h], s)[0].isDefault
  {
  }

  // ---- delete ----

  /**
   * Entry `j` can be promoted when the account being deleted is flagged
   * default: another ID with the same (non-NULL) protocol.
   */
  predicate Promotable(v: seq<Account>, target: Account, j: nat)
    requires j < |v|
  {
    target.isDefault && v[j].aid != target.aid
    && target.protocolName.Some? && v[j].protocolName == target.protocolName
  }

  /** The last promotable index below `k`. */
  function LastPromotableBefore(v: seq<Account>, target: Account, k: nat): (r: Option<nat>)
    requires k <= |v|
    ensures r.Some? ==> r.value < k && Promotable(v, target, r.value)
    ensures r.Some? ==> forall j :: r.value < j < k ==> !Promotable(v, target, j)
    ensures r.None? ==> forall j :: 0 <= j < k ==> !Promotable(v, target, j)
  {
    if k == 0 then None
    else if Promotable(v, target, k - 1) then Some(k - 1)
    else LastPromotableBefore(v, target, k - 1)
  }

  /** The first promotable index at or after `k`. */
  function FirstPromotableFrom(v: seq<Account>, target: Account, k: nat): (r: Option<nat>)
    decreases |v| - k
    ensures r.Some? ==> k <= r.value < |v| && Promotable(v, target, r.value)
    ensures r.Some? ==> forall j :: k <= j < r.value ==> !Promotable(v, target, j)
    ensures r.None? ==> forall j :: k <= j < |v| ==> !Promotable(v, target, j)
  {
    if k >= |v| then None
    else if Promotable(v, target, k) then Some(k)
    else FirstPromotableFrom(v, target, k + 1)
  }

  /** The entry promoted when the entry at `m` is deleted. */
  function PromotedAround(v: seq<Account>, target: Account, m: nat): Option<nat>
    requires m < |v|
  {
    var before := LastPromotableBefore(v, target, m);
    if before.Some? then before else FirstPromotableFrom(v, target, m + 1)
  }

  /**
   * The entry delete promotes: the last promotable one before the deleted
   * entry, else the first after it; when no entry has the ID, the last
   * promotable entry of the list.
   */
  function Promoted(v: seq<Account>, target: Account): Option<nat>
  {
    match IndexOfId(v, target.aid, 0)
    case Some(m) => PromotedAround(v, target, m)
    case None => LastPromotableBefore(v, target, |v|)
  }

  function RemoveAt(v: seq<Account>, m: nat): (r: seq<Account>)
    requires m < |v|
    ensures |r| == |v| - 1
    ensures forall j :: 0 <= j < m ==> r[j] == v[j]
    ensures forall j :: m <= j < |r| ==> r[j] == v[j + 1]
  {
    v[..m] + v[m + 1..]
  }

  function Promote(v: seq<Account>, p: Option<nat>): (r: seq<Account>)
    requires p.Some? ==> p.value < |v|
  {
    if p.Some? then v[p.value := v[p.value].(isDefault := true)] else v
  }

  /** The list after delete. */
  function Deleted(v: seq<Account>, target: Account): seq<Account>
  {
    var w := Promote(v, Promoted(v, target));
    match IndexOfId(v, target.aid, 0)
    case Some(m) => RemoveAt(w, m)
    case None => w
  }

  /** Delete removes the account with the ID, and only it; no entry keeps that ID. */
  lemma DeletedRemovesTarget(v: seq<Account>, target: Account)
    requires DistinctIds(v)
    ensures |Deleted(v, target)| == if HasId(v, target.aid) then |v| - 1 else |v|
    ensures forall i :: 0 <= i < |Deleted(v, target)| ==> Deleted(v, target)[i].aid != target.aid
  {
    var w := Promote(v, Promoted(v, target));
    assert forall i :: 0 <= i < |w| ==> w[i].aid == v[i].aid;
    match IndexOfId(v, target.aid, 0)
    case Some(m) =>
    case None =>
  }

  /** Apart from one default flag, delete leaves the other entries as they were, in order. */
  lemma DeletedKeepsOthers(v: seq<Account>, target: Account)
    ensures var d := Deleted(v, target);
            var k := IndexOfId(v, target.aid, 0);
            forall i :: 0 <= i < |d| ==>
              d[i].(isDefault := false) == (if k.Some? && i >= k.value then v[i + 1] else v[i]).(isDefault := false)
  {
    var p := Promoted(v, target);
    var w := Promote(v, p);
    PromoteKeepsOthers(v, p);
    var d := Deleted(v, target);
    match IndexOfId(v, target.aid, 0)
    case Some(m) =>
      assert d == RemoveAt(w, m);
    case None =>
      assert d == w;
  }

  /** Promoting changes at most one default flag and nothing else. */
  lemma PromoteKeepsOthers(v: seq<Account>, p: Option<nat>)
    requires p.Some? ==> p.value < |v|
    ensures |Promote(v, p)| == |v|
    ensures forall i :: 0 <= i < |v| ==> Promote(v, p)[i].(isDefault := false) == v[i].(isDefault := false)
  {
  }

  /**
   * When a default account of protocol P is deleted and another account of
   * P exists, one is promoted: the last one before it, else the first after it.
   */
  lemma DeletePromotesNeighbour(v: seq<Account>, target: Account, m: nat)
    requires DistinctIds(v) && m < |v| && v[m].aid == target.aid
    requires target.isDefault && target.protocolName.Some?
    requires exists j :: 0 <= j < |v| && j != m && v[j].protocolName == target.protocolName
    ensures Promoted(v, target).Some?
    ensures var p := Promoted(v, target).value;
            v[p].protocolName == target.protocolName && p != m
            && (p < m ==> forall j :: p < j < m ==> v[j].protocolName != target.protocolName)
            && (p > m ==> forall j :: 0 <= j < p && j != m ==> v[j].protocolName != target.protocolName)
  {
    assert IndexOfId(v, target.aid, 0) == Some(m);
    assert forall j :: 0 <= j < |v| && j != m ==>
      (Promotable(v, target, j) <==> v[j].protocolName == target.protocolName) by {
      forall j | 0 <= j < |v| && j != m ensures v[j].aid != target.aid {
        if j < m { assert v[j].aid != v[m].aid; } else { assert v[m].aid != v[j].aid; }
      }
    }
    assert !Promotable(v, target, m);
    var j :| 0 <= j < |v| && j != m && v[j].protocolName == target.protocolName;
    assert Promotable(v, target, j);
    if LastPromotableBefore(v, target, m).None? {
      assert j > m;
    }
  }

  /** Deleting the only default of its protocol keeps at most one default per protocol. */
  lemma DeletedKeepsOneDefault(v: seq<Account>, target: Account, m: nat)
    requires DistinctIds(v) && OneDefaultPerProtocol(v)
    requires m < |v| && v[m] == target && target.isDefault
    ensures OneDefaultPerProtocol(Deleted(v, target))
  {
    assert IndexOfId(v, target.aid, 0) == Some(m);
    var d := Deleted(v, target);
    var P := Promoted(v, target);
    var w := Promote(v, P);
    forall i, j | 0 <= i < j < |d| && d[i].isDefault && d[j].isDefault
      ensures d[i].protocolName != d[j].protocolName
    {
      var i' := if i >= m then i + 1 else i;
      var j' := if j >= m then j + 1 else j;
      assert d[i] == w[i'] && d[j] == w[j'];
      if P.Some? && (i' == P.value || j' == P.value) {
        var o := if i' == P.value then j' else i';
        assert w[o] == v[o] && v[o].isDefault;
        assert v[o].protocolName != v[m].protocolName by {
          if o < m { assert v[o].isDefault && v[m].isDefault; } else { assert v[m].isDefault && v[o].isDefault; }
        }
      } else {
        assert w[i'] == v[i'] && w[j'] == v[j'];
      }
    }
  }

  /**
   * The header promises that the FIRST account of the protocol becomes the
   * default; the code promotes the last one stored before the deleted entry.
   */
  lemma DeletePromotesLastPreceding()
    ensures var a := NewAccount("a").(protocolName := Some("SIP"));
            var b := NewAccount("b").(protocolName := Some("SIP"));
            var c := NewAccount("c").(protocolName := Some("SIP"), isDefault := true);
            Deleted([a, b, c], c) == [a, b.(isDefault := true)]
  {
    var a := NewAccount("a").(protocolName := Some("SIP"));
    var b := NewAccount("b").(protocolName := Some("SIP"));
    var c := NewAccount("c").(protocolName := Some("SIP"), isDefault := true);
    var v := [a, b, c];
    assert v[0].aid != "c" && v[1].aid != "c";
    assert IndexOfId(v, "c", 2) == Some(2);
    assert IndexOfId(v, "c", 1) == Some(2);
    assert IndexOfId(v, "c", 0) == Some(2);
    assert Promotable(v, c, 1);
    assert LastPromotableBefore(v, c, 2) == Some(1);
  }

  // ---- toggle-active ----

  /**
   * Entry `i` after toggle_active(a). The C loop compares `a.enabled` at
   * every entry, and overwrites it at the matching entry: entries before
   * the match see the old value, entries after it the new one.
   */
  function ToggledAt(v: seq<Account>, a: Account, i: nat): Account
    requires i < |v|
  {
    var k := IndexOfId(v, a.aid, 0);
    var seen := if k.Some? && k.value < i then !a.enabled else a.enabled;
    if k == Some(i) then v[i].(enabled := !a.enabled)
    else if a.protocolName == Some("H323") && v[i].protocolName == Some("H323") && !seen
    then v[i].(enabled := false)
    else v[i]
  }

  function Toggled(v: seq<Account>, a: Account): (r: seq<Account>)
    ensures |r| == |v|
    ensures forall i :: 0 <= i < |v| ==> r[i] == ToggledAt(v, a, i)
  {
    seq(|v|, i requires 0 <= i < |v| => ToggledAt(v, a, i))
  }

  /** Toggling flips the matching account and changes only `enabled` flags. */
  lemma ToggledFlipsTarget(v: seq<Account>, a: Account, m: nat)
    requires DistinctIds(v) && m < |v| && v[m].aid == a.aid
    ensures Toggled(v, a)[m].enabled == !a.enabled
    ensures forall i :: 0 <= i < |v| ==> Toggled(v, a)[i].(enabled := v[i].enabled) == v[i]
  {
    IndexOfDistinctId(v, a.aid, m);
    var t := Toggled(v, a);
    assert t[m] == ToggledAt(v, a, m);
    forall i | 0 <= i < |v|
      ensures t[i].(enabled := v[i].enabled) == v[i]
    {
      assert t[i] == ToggledAt(v, a, i);
    }
  }

  /** Toggling a non-H.323 account changes nothing but that account. */
  lemma ToggledOtherProtocol(v: seq<Account>, a: Account)
    requires a.protocolName != Some("H323")
    ensures forall i :: 0 <= i < |v| && v[i].aid != a.aid ==> Toggled(v, a)[i] == v[i]
  {
  }

  /**
   * Enabling an H.323 account disables every other H.323 account stored
   * before it and leaves those stored after it as they were.
   */
  lemma EnablingH323DisablesEarlierOnly(v: seq<Account>, a: Account, m: nat)
    requires DistinctIds(v) && m < |v| && v[m].aid == a.aid
    requires a.protocolName == Some("H323") && !a.enabled
    ensures Toggled(v, a)[m].enabled
    ensures forall i :: 0 <= i < m && v[i].protocolName == Some("H323") ==> !Toggled(v, a)[i].enabled
    ensures forall i :: m < i < |v| ==> Toggled(v, a)[i] == v[i]
  {
    assert IndexOfId(v, a.aid, 0) == Some(m);
  }

  /** Disabling an H.323 account disables every H.323 account stored after it. */
  lemma DisablingH323DisablesLater(v: seq<Account>, a: Account, m: nat)
    requires DistinctIds(v) && m < |v| && v[m].aid == a.aid
    requires a.protocolName == Some("H323") && a.enabled
    ensures !Toggled(v, a)[m].enabled
    ensures forall i :: 0 <= i < m ==> Toggled(v, a)[i] == v[i]
    ensures forall i :: m < i < |v| && v[i].protocolName == Some("H323") ==> !Toggled(v, a)[i].enabled
  {
    assert IndexOfId(v, a.aid, 0) == Some(m);
  }

  // ---- set-default ----

  function SetDefaultAt(v: seq<Account>, a: Account, d: bool, i: nat): Account
    requires i < |v|
  {
    if v[i].protocolName != a.protocolName then v[i]
    else if v[i].aid != a.aid then v[i].(isDefault := !d)
    else v[i].(isDefault := d)
  }

  function DefaultSet(v: seq<Account>, a: Account, d: bool): (r: seq<Account>)
    ensures |r| == |v|
    ensures forall i :: 0 <= i < |v| ==> r[i] == SetDefaultAt(v, a, d, i)
  {
    seq(|v|, i requires 0 <= i < |v| => SetDefaultAt(v, a, d, i))
  }

  /**
   * Making an account the default leaves it the only default of its
   * protocol and touches no other protocol; with at most one default per
   * protocol before, the same holds after.
   */
  lemma DefaultSetIsOnlyDefault(v: seq<Account>, a: Account)
    ensures forall i :: 0 <= i < |v| && v[i].protocolName == a.protocolName ==>
              (DefaultSet(v, a, true)[i].isDefault <==> v[i].aid == a.aid)
    ensures forall i :: 0 <= i < |v| && v[i].protocolName != a.protocolName ==> DefaultSet(v, a, true)[i] == v[i]
    ensures DistinctIds(v) && OneDefaultPerProtocol(v) ==> OneDefaultPerProtocol(DefaultSet(v, a, true))
  {
  }

  // ---- lookups ----

  /** get_account's test: the domain or the host equals the text, ignoring ASCII case. */
  predicate ServesDomain(a: Account, domain: string)
  {
    (a.domain.Some? && EqualsIgnoreCase(a.domain.value, domain))
    || (a.host.Some? && EqualsIgnoreCase(a.host.value, domain))
  }

  /** get_default_account's test. */
  predicate DefaultFor(a: Account, protocol: string)
  {
    a.protocolName.Some? && a.isDefault && EqualsIgnoreCase(a.protocolName.value, protocol)
  }

  /**
   * What delete's scan knows after the first `i` entries: where the ID
   * was seen, and the candidate default it would promote.
   */
  ghost predicate ScanInv(v: seq<Account>, target: Account, i: nat,
                          found: bool, deleteAt: nat, newDefault: bool, promoteAt: nat)
  {
    i <= |v|
    && (found ==> deleteAt < i && IndexOfId(v, target.aid, 0) == Some(deleteAt))
    && (!found ==> forall j :: 0 <= j < i ==> v[j].aid != target.aid)
    && (newDefault ==> LastPromotableBefore(v, target, i) == Some(promoteAt))
    && (!newDefault ==> LastPromotableBefore(v, target, i).None?)
    && (found && newDefault ==> PromotedAround(v, target, deleteAt) == Some(promoteAt))
    && (found && !newDefault ==>
          LastPromotableBefore(v, target, deleteAt).None?
          && FirstPromotableFrom(v, target, deleteAt + 1) == FirstPromotableFrom(v, target, i))
  }

  /** One entry of delete's scan keeps ScanInv. */
  lemma ScanStep(v: seq<Account>, target: Account, i: nat,
                 found: bool, deleteAt: nat, newDefault: bool, promoteAt: nat)
    requires DistinctIds(v) && ScanInv(v, target, i, found, deleteAt, newDefault, promoteAt)
    requires i < |v| && (!found || !newDefault)
    ensures var hit := v[i].aid == target.aid;
            var promote := !hit && Promotable(v, target, i);
            ScanInv(v, target, i + 1, found || hit, if hit then i else deleteAt,
                    newDefault || promote, if promote then i else promoteAt)
  {
    var hit := v[i].aid == target.aid;
    if hit {
      IndexOfDistinctId(v, target.aid, i);
      assert !Promotable(v, target, i);
      assert LastPromotableBefore(v, target, i + 1) == LastPromotableBefore(v, target, i);
    } else if Promotable(v, target, i) {
      assert LastPromotableBefore(v, target, i + 1) == Some(i);
    } else {
      assert LastPromotableBefore(v, target, i + 1) == LastPromotableBefore(v, target, i);
    }
  }

  /** Where delete's scan stops, it has found what Promoted describes. */
  lemma ScanDone(v: seq<Account>, target: Account, i: nat,
                 found: bool, deleteAt: nat, newDefault: bool, promoteAt: nat)
    requires ScanInv(v, target, i, found, deleteAt, newDefault, promoteAt)
    requires i == |v| || (found && newDefault)
    ensures found == HasId(v, target.aid)
    ensures found ==> IndexOfId(v, target.aid, 0) == Some(deleteAt)
    ensures !found ==> IndexOfId(v, target.aid, 0).None?
    ensures Promoted(v, target) == if newDefault then Some(promoteAt) else None
  {
    if !found {
      assert !HasId(v, target.aid);
    }
  }

  /** The persisted list: `entries` is what the configuration key holds. */
  class AccountList {
    var entries: seq<string>
    /** The accounts the lines hold, in order. */
    ghost var accounts: seq<Account>

    ghost predicate Valid()
      reads this
    {
      Stores(entries, accounts)
    }

    constructor ()
      ensures Valid() && accounts == []
    {
      entries := [];
      accounts := [];
    }

    /** Parsing line `i` of the list gives the account it holds. */
    method ReadAt(i: nat) returns (a: Account)
      requires Valid() && i < |entries|
      ensures a == accounts[i] && WellFormed(a)
    {
      assert LineHolds(entries, accounts, i);
      ParseSerialize(accounts[i], "");
      a := Read(entries[i]);
    }

    /** Splitting line `i` at '|' gives the fields of the account it holds. */
    method FieldsAt(i: nat) returns (couple: seq<string>)
      requires Valid() && i < |entries|
      ensures couple == Fields(accounts[i])
      ensures |couple| == 12 && couple[2] == accounts[i].aid
    {
      assert LineHolds(entries, accounts, i);
      FieldsArePlain(accounts[i]);
      SplitOfJoin(Fields(accounts[i]), '|');
      couple := Split(entries[i], '|');
    }

    /** Overwriting line `i` with the text of an account of the same ID. */
    method WriteAt(i: nat, a: Account)
      requires Valid() && i < |entries| && WellFormed(a) && a.aid == accounts[i].aid
      modifies this
      ensures Valid() && accounts == old(accounts)[i := a]
    {
      StoresUpdate(entries, accounts, i, a);
      entries := entries[i := Serialize(a)];
      accounts := accounts[i := a];
    }

    /** g_slist_append of the text of an account with a new ID. */
    method AppendLine(a: Account)
      requires Valid() && WellFormed(a) && !HasId(accounts, a.aid)
      modifies this
      ensures Valid() && accounts == old(accounts) + [a]
    {
      StoresAppend(entries, accounts, a);
      entries := entries + [Serialize(a)];
      accounts := accounts + [a];
    }

    /** g_slist_remove_link of line `k`. */
    method RemoveLine(k: nat)
      requires Valid() && k < |entries|
      modifies this
      ensures Valid() && accounts == old(accounts)[..k] + old(accounts)[k + 1..]
    {
      StoresRemove(entries, accounts, k);
      entries := entries[..k] + entries[k + 1..];
      accounts := accounts[..k] + accounts[k + 1..];
    }

    /** gnomemeeting_get_accounts_list: every stored line read back, in order. */
    method AccountsList() returns (r: seq<Account>)
      requires Valid()
      ensures r == accounts
    {
      r := [];
      var i := 0;
      while i < |entries|
        invariant 0 <= i <= |entries| == |accounts|
        invariant r == accounts[..i]
      {
        var current := ReadAt(i);
        r := r + [current];
        i := i + 1;
      }
    }

    /**
     * gnomemeeting_account_add. The account and its ID must not be in the
     * list yet; the new line is written from the account as stored.
     */
    method Add(account: Account) returns (ok: bool, stored: Account)
      requires Valid() && WellFormed(account) && !HasId(accounts, account.aid)
      modifies this
      ensures Valid()
      ensures ok
      ensures stored == AddedAccount(old(accounts), account)
      ensures accounts == Added(old(accounts), account)
    {
      ghost var v := accounts;
      stored := account;
      if entries == [] {
        stored := stored.(isDefault := true);
      }
      if stored.isDefault {
        ClearAllDefaults();
      }
      assert accounts == if stored.isDefault then ClearDefaults(v) else v;
      assert !HasId(accounts, account.aid) by {
        assert forall j :: 0 <= j < |accounts| ==> accounts[j].aid == v[j].aid;
      }
      AppendLine(stored);
      ok := true;
    }

    /** The loop of add that rewrites every line with its default flag cleared. */
    method ClearAllDefaults()
      requires Valid()
      modifies this
      ensures Valid()
      ensures accounts == ClearDefaults(old(accounts))
    {
      var i := 0;
      while i < |entries|
        invariant 0 <= i <= |entries| == |accounts| == |old(accounts)|
        invariant Valid()
        invariant forall j :: 0 <= j < i ==> accounts[j] == old(accounts)[j].(isDefault := false)
        invariant forall j :: i <= j < |accounts| ==> accounts[j] == old(accounts)[j]
      {
        var current := ReadAt(i);
        current := current.(isDefault := false);
        WriteAt(i, current);
        i := i + 1;
      }
    }

    /** gnomemeeting_account_delete: remove the account's line, promote a new default. */
    method Delete(account: Account) returns (found: bool)
      requires Valid()
      modifies this
      ensures Valid()
      ensures found == HasId(old(accounts), account.aid)
      ensures accounts == Deleted(old(accounts), account)
    {
      ghost var v := accounts;
      var deleteAt, newDefault, promoteAt, promoted;
      found, deleteAt, newDefault, promoteAt, promoted := ScanForDelete(account);
      if newDefault {
        WriteAt(promoteAt, promoted);
      }
      assert accounts == Promote(v, Promoted(v, account));
      if found {
        RemoveLine(deleteAt);
      }
    }

    /**
     * The loop of delete: it stops once it has seen the account and a
     * candidate default, remembering the last candidate seen.
     */
    method ScanForDelete(account: Account)
      returns (found: bool, deleteAt: nat, newDefault: bool, promoteAt: nat, promoted: Account)
      requires Valid()
      ensures found == HasId(accounts, account.aid)
      ensures found ==> IndexOfId(accounts, account.aid, 0) == Some(deleteAt)
      ensures !found ==> IndexOfId(accounts, account.aid, 0).None?
      ensures Promoted(accounts, account) == if newDefault then Some(promoteAt) else None
      ensures newDefault ==> promoteAt < |accounts| && promoted == accounts[promoteAt].(isDefault := true)
                             && WellFormed(promoted)
    {
      ghost var v := accounts;
      var i := 0;
      newDefault := false;
      deleteAt := 0;
      promoteAt := 0;
      promoted := account;
      found := false;
      while i < |entries| && (!found || !newDefault)
        invariant |entries| == |v| && v == accounts
        invariant ScanInv(v, account, i, found, deleteAt, newDefault, promoteAt)
        invariant newDefault ==> promoteAt < |v| && promoted == v[promoteAt].(isDefault := true) && WellFormed(promoted)
      {
        var current := ReadAt(i);
        ScanStep(v, account, i, found, deleteAt, newDefault, promoteAt);
        if current.aid == account.aid {
          found := true;
          deleteAt := i;
        } else if account.isDefault {
          if account.protocolName.Some? && current.protocolName == account.protocolName {
            promoteAt := i;
            promoted := current.(isDefault := true);
            newDefault := true;
          }
        }
        i := i + 1;
      }
      ScanDone(v, account, i, found, deleteAt, newDefault, promoteAt);
    }

    /** gnomemeeting_account_modify: overwrite the line holding the account's ID. */
    method Modify(account: Account) returns (found: bool)
      requires Valid() && WellFormed(account)
      modifies this
      ensures Valid()
      ensures found == HasId(old(accounts), account.aid)
      ensures found ==> accounts == old(accounts)[IndexOfId(old(accounts), account.aid, 0).value := account]
      ensures !found ==> entries == old(entries) && accounts == old(accounts)
    {
      var i := 0;
      found := false;
      while i < |entries| && !found
        invariant 0 <= i <= |entries| && entries == old(entries) && accounts == old(accounts)
        invariant found ==> i < |entries| && IndexOfId(accounts, account.aid, 0) == Some(i)
        invariant !found ==> forall j :: 0 <= j < i ==> accounts[j].aid != account.aid
        decreases |entries| - i, !found
      {
        var couple := FieldsAt(i);
        if |couple| > 2 && couple[2] == account.aid {
          found := true;
        } else {
          i := i + 1;
        }
      }
      if found {
        WriteAt(i, account);
      }
    }

    /**
     * gnomemeeting_account_toggle_active. Returns TRUE and the account with
     * its `enabled` as stored after the call.
     */
    method ToggleActive(account: Account) returns (ok: bool, updated: Account)
      requires Valid() && account.protocolName.Some?
      modifies this
      ensures Valid()
      ensures ok
      ensures accounts == Toggled(old(accounts), account)
      ensures updated == account.(enabled := if HasId(old(accounts), account.aid) then !account.enabled else account.enabled)
    {
      ghost var v := accounts;
      updated := account;
      var i := 0;
      while i < |entries|
        invariant 0 <= i <= |entries| == |accounts| == |v|
        invariant Valid() && DistinctIds(v)
        invariant forall j :: 0 <= j < i ==> accounts[j] == ToggledAt(v, account, j)
        invariant forall j :: i <= j < |accounts| ==> accounts[j] == v[j]
        invariant var k := IndexOfId(v, account.aid, 0);
                  updated == account.(enabled := if k.Some? && k.value < i then !account.enabled else account.enabled)
      {
        updated := ToggleEntry(v, account, i, updated);
        i := i + 1;
      }
      assert IndexOfId(v, account.aid, 0).Some? <==> HasId(v, account.aid);
      ok := true;
    }

    /** One pass of toggle_active's loop over line `i`, with `seen` the account as updated so far. */
    method ToggleEntry(ghost v: seq<Account>, account: Account, i: nat, seen: Account) returns (updated: Account)
      requires Valid() && DistinctIds(v) && i < |accounts| == |v| && accounts[i] == v[i]
      requires var k := IndexOfId(v, account.aid, 0);
               seen == account.(enabled := if k.Some? && k.value < i then !account.enabled else account.enabled)
      modifies this
      ensures Valid() && accounts == old(accounts)[i := ToggledAt(v, account, i)]
      ensures var k := IndexOfId(v, account.aid, 0);
              updated == account.(enabled := if k.Some? && k.value <= i then !account.enabled else account.enabled)
    {
      updated := seen;
      var current := ReadAt(i);
      if account.protocolName == Some("H323") && current.protocolName == Some("H323") && !updated.enabled {
        current := current.(enabled := false);
      }
      if current.aid == updated.aid {
        current := current.(enabled := !updated.enabled);
        updated := updated.(enabled := current.enabled);
      }
      IndexOfDistinctId(v, account.aid, i);
      WriteAt(i, current);
    }

    /**
     * gnomemeeting_account_set_default. Returns whether the account was
     * found, and the account with its default flag as stored.
     */
    method SetDefault(account: Account, isDefault: bool) returns (found: bool, updated: Account)
      requires Valid()
      modifies this
      ensures Valid()
      ensures account.protocolName.None? || old(entries) == [] ==>
                !found && entries == old(entries) && accounts == old(accounts)
      ensures account.protocolName.Some? && old(entries) != [] ==>
                accounts == DefaultSet(old(accounts), account, isDefault)
                && (found <==> exists i :: 0 <= i < |old(accounts)| && old(accounts)[i].aid == account.aid
                                                                    && old(accounts)[i].protocolName == account.protocolName)
      ensures updated == if found then account.(isDefault := isDefault) else account
    {
      found := false;
      updated := account;
      if account.protocolName.None? || entries == [] {
        return;
      }
      ghost var v := accounts;
      var i := 0;
      while i < |entries|
        invariant 0 <= i <= |entries| == |accounts| == |v|
        invariant Valid()
        invariant forall j :: 0 <= j < i ==> accounts[j] == SetDefaultAt(v, account, isDefault, j)
        invariant forall j :: i <= j < |accounts| ==> accounts[j] == v[j]
        invariant found <==> exists j :: 0 <= j < i && v[j].aid == account.aid && v[j].protocolName == account.protocolName
        invariant updated == if found then account.(isDefault := isDefault) else account
      {
        found, updated := SetDefaultEntry(v, account, isDefault, i, found, updated);
        i := i + 1;
      }
    }

    /** One pass of set_default's loop over line `i`. */
    method SetDefaultEntry(ghost v: seq<Account>, account: Account, isDefault: bool, i: nat,
                           seen: bool, sofar: Account)
      returns (found: bool, updated: Account)
      requires Valid() && i < |accounts| == |v| && accounts[i] == v[i]
      modifies this
      ensures Valid() && accounts == old(accounts)[i := SetDefaultAt(v, account, isDefault, i)]
      ensures var hit := v[i].aid == account.aid && v[i].protocolName == account.protocolName;
              found == (seen || hit) && updated == if hit then sofar.(isDefault := isDefault) else sofar
    {
      found, updated := seen, sofar;
      var current := ReadAt(i);
      if current.protocolName == account.protocolName {
        if current.aid != account.aid {
          current := current.(isDefault := !isDefault);
        } else {
          current := current.(isDefault := isDefault);
          updated := updated.(isDefault := isDefault);
          found := true;
        }
        WriteAt(i, current);
      }
    }

    /** gnomemeeting_get_account: the first account whose domain or host is `domain`. */
    method GetAccount(domain: string) returns (r: Option<Account>)
      requires Valid()
      ensures r.Some? ==> exists i :: 0 <= i < |accounts| && r.value == accounts[i] && ServesDomain(accounts[i], domain)
                                      && forall j :: 0 <= j < i ==> !ServesDomain(accounts[j], domain)
      ensures r.None? ==> forall j :: 0 <= j < |accounts| ==> !ServesDomain(accounts[j], domain)
    {
      var i := 0;
      r := None;
      while i < |entries| && r.None?
        invariant 0 <= i <= |entries| == |accounts|
        invariant r.None? ==> forall j :: 0 <= j < i ==> !ServesDomain(accounts[j], domain)
        invariant r.Some? ==> 0 < i && r.value == accounts[i - 1] && ServesDomain(accounts[i - 1], domain)
                              && forall j :: 0 <= j < i - 1 ==> !ServesDomain(accounts[j], domain)
      {
        var current := ReadAt(i);
        if ServesDomain(current, domain) {
          r := Some(current);
        }
        i := i + 1;
      }
    }

    /** gnomemeeting_get_default_account: the first default account of `protocol`. */
    method GetDefaultAccount(protocol: string) returns (r: Option<Account>)
      requires Valid()
      ensures r.Some? ==> exists i :: 0 <= i < |accounts| && r.value == accounts[i] && DefaultFor(accounts[i], protocol)
                                      && forall j :: 0 <= j < i ==> !DefaultFor(accounts[j], protocol)
      ensures r.None? ==> forall j :: 0 <= j < |accounts| ==> !DefaultFor(accounts[j], protocol)
    {
      var i := 0;
      r := None;
      while i < |entries| && r.None?
        invariant 0 <= i <= |entries| == |accounts|
        invariant r.None? ==> forall j :: 0 <= j < i ==> !DefaultFor(accounts[j], protocol)
        invariant r.Some? ==> 0 < i && r.value == accounts[i - 1] && DefaultFor(accounts[i - 1], protocol)
                              && forall j :: 0 <= j < i - 1 ==> !DefaultFor(accounts[j], protocol)
      {
        var current := ReadAt(i);
        if DefaultFor(current, protocol) {
          r := Some(current);
        }
        i := i + 1;
      }
    }
  }

}
