// The account record (GmAccount, src/gui/accounts.h) and the one-line text
// form the account list is persisted in, together with the checks and
// defaults the account edit dialog applies before storing an account.

module Accounts {
  import opened Base
  import opened Text

  /**
   * One account. A C string field that may be NULL is an Option; `enabled`
   * and `isDefault` are gbooleans.
   */
  datatype Account = Account(
    aid: string,
    accountName: Option<string>,
    protocolName: Option<string>,
    host: Option<string>,
    domain: Option<string>,
    username: Option<string>,
    authUsername: Option<string>,
    password: Option<string>,
    enabled: bool,
    isDefault: bool,
    timeout: int,
    methodCode: int)

  /** gm_account_new, given the globally unique ID the caller generated. */
  function NewAccount(aid: string): Account
  {
    Account(aid, None, None, None, None, None, None, None, false, false, 3600, 0)
  }

  /** What printf "%s" prints for a possibly NULL string (glibc prints "(null)"). */
  function PrintedString(s: Option<string>): string
  {
    s.GetOr("(null)")
  }

  function PrintedBool(b: bool): string
  {
    IntToString(if b then 1 else 0)
  }

  /** The twelve fields in their stored order. */
  function Fields(a: Account): (r: seq<string>)
    ensures |r| == 12
  {
    [PrintedBool(a.enabled), PrintedBool(a.isDefault), a.aid,
     PrintedString(a.accountName), PrintedString(a.protocolName),
     PrintedString(a.host), PrintedString(a.domain),
     PrintedString(a.username), PrintedString(a.authUsername),
     PrintedString(a.password),
     IntToString(a.timeout), IntToString(a.methodCode)]
  }

  /** gm_aw_from_account_to_string: the fields joined with '|'. */
  function Serialize(a: Account): (r: string)
    ensures '|' in r
  {
    var f := Fields(a);
    assert Join(f, '|') == f[0] + "|" + Join(f[1..], '|');
    assert Join(f, '|')[|f[0]|] == '|';
    Join(f, '|')
  }

  /**
   * gm_aw_from_string_to_account: the string is split at every '|'; the
   * k-th field is read only when there are more than k pieces and every
   * field not read keeps its gm_account_new value, including the fresh ID.
   */
  function Parse(s: string, freshAid: string): (a: Account)
  {
    var t := Split(s, '|');
    var n := |t|;
    Account(
      if n > 2 then t[2] else freshAid,
      if n > 3 then Some(t[3]) else None,
      if n > 4 then Some(t[4]) else None,
      if n > 5 then Some(t[5]) else None,
      if n > 6 then Some(t[6]) else None,
      if n > 7 then Some(t[7]) else None,
      if n > 8 then Some(t[8]) else None,
      if n > 9 then Some(t[9]) else None,
      n > 0 && Atoi(t[0]) != 0,
      n > 1 && Atoi(t[1]) != 0,
      if n > 10 then Atoi(t[10]) else 3600,
      if n > 11 then Atoi(t[11]) else 0)
  }

  predicate Plain(s: string)
  {
    '|' !in s
  }

  predicate PlainField(s: Option<string>)
  {
    s.Some? && Plain(s.value)
  }

  /**
   * An account whose every string field is set and free of the separator,
   * and whose numbers fit the C ints they are held in.
   */
  predicate WellFormed(a: Account)
  {
    Plain(a.aid) && PlainField(a.accountName) && PlainField(a.protocolName)
    && PlainField(a.host) && PlainField(a.domain) && PlainField(a.username)
    && PlainField(a.authUsername) && PlainField(a.password)
    && IsInt(a.timeout) && IsInt(a.methodCode)
  }

  lemma NumberIsPlain(n: int)
    ensures Plain(IntToString(n))
  {
  }

  lemma FieldsArePlain(a: Account)
    requires WellFormed(a)
    ensures forall i :: 0 <= i < 12 ==> '|' !in Fields(a)[i]
  {
    NumberIsPlain(a.timeout);
    NumberIsPlain(a.methodCode);
    NumberIsPlain(0);
    NumberIsPlain(1);
  }

  /** Reading back what was written gives the same account. */
  lemma ParseSerialize(a: Account, freshAid: string)
    requires WellFormed(a)
    ensures Parse(Serialize(a), freshAid) == a
  {
    var f := Fields(a);
    FieldsArePlain(a);
    SplitOfJoin(f, '|');
    assert Split(Serialize(a), '|') == f;
    AtoiIntToString(a.timeout);
    AtoiIntToString(a.methodCode);
    AtoiIntToString(0);
    AtoiIntToString(1);
  }

  /** A NULL string field is written as "(null)" and read back as that text. */
  lemma NullFieldReadsBackAsText(a: Account)
    requires WellFormed(a.(host := Some("(null)")))
    ensures Parse(Serialize(a.(host := None)), a.aid).host == Some("(null)")
  {
    ParseSerialize(a.(host := Some("(null)")), a.aid);
    assert Serialize(a.(host := None)) == Serialize(a.(host := Some("(null)")));
  }

  /** Once a string has three pieces, the freshly generated ID is overwritten. */
  lemma ParseIgnoresFreshId(s: string, x: string, y: string)
    requires |Split(s, '|')| > 2
    ensures Parse(s, x) == Parse(s, y)
  {
  }

  /** The empty string holds no field at all: the result is a new account. */
  lemma ParseEmpty(freshAid: string)
    ensures Parse("", freshAid) == NewAccount(freshAid)
  {
  }

  // ---- The account edit dialog ----

  /** The text in the dialog's entries when OK is pressed. */
  datatype DialogInput = DialogInput(
    username: string,
    authUsername: string,
    accountName: string,
    host: string,
    password: string,
    domain: string,
    timeout: string)

  /**
   * The dialog's sanity check: a user name and an account name, no '|' in
   * any text field, and a timeout made only of digits (possibly none).
   */
  predicate DialogValid(d: DialogInput)
  {
    d.username != [] && d.accountName != []
    && Plain(d.username) && Plain(d.authUsername) && Plain(d.accountName)
    && Plain(d.host) && Plain(d.password) && Plain(d.domain)
    && AllDigits(d.timeout)
  }

  /** The host part of "user@host" (what SIPURL's host name is taken to be). */
  function HostPart(username: string): (r: string)
    ensures |r| <= |username| && r == username[|username| - |r|..]
  {
    match FindChar(username, '@')
    case Some(i) => username[i + 1..]
    case None => username
  }

  /** The user part of "user@host". */
  function UserPart(username: string): (r: string)
    ensures |r| <= |username| && r == username[..|r|]
  {
    match FindChar(username, '@')
    case Some(i) => username[..i]
    case None => username
  }

  /**
   * The domain stored for an empty domain entry: for SIP (protocol 0) the
   * host part of a "user@host" user name, else the registrar host; for
   * H.323 the empty string.
   */
  function DialogDomain(protocol: int, d: DialogInput): (r: string)
    ensures d.domain != [] ==> r == d.domain
    ensures d.domain == [] && protocol != 0 ==> r == []
    ensures d.domain == [] && protocol == 0 && '@' !in d.username ==> r == d.host
    ensures d.domain == [] && protocol == 0 && '@' in d.username ==> r == HostPart(d.username)
  {
    if d.domain != [] then d.domain
    else if protocol == 0 then (if '@' in d.username then HostPart(d.username) else d.host)
    else []
  }

  /** The authentication user name stored for an empty entry. */
  function DialogAuthUsername(d: DialogInput): (r: string)
    ensures d.authUsername != [] ==> r == d.authUsername
    ensures d.authUsername == [] ==> |r| <= |d.username| && r == d.username[..|r|]
  {
    if d.authUsername != [] then d.authUsername
    else if '@' in d.username then UserPart(d.username)
    else d.username
  }

  /**
   * The registration timeout stored from the dialog's text: 0 (or no
   * number) means one hour, anything else is raised to at least 25 seconds.
   */
  function DialogTimeout(text: string): (r: int)
    ensures 25 <= r <= IntMax
    ensures Atoi(text) == 0 ==> r == 3600
    ensures Atoi(text) != 0 && Atoi(text) < 25 ==> r == 25
    ensures Atoi(text) >= 25 ==> r == Atoi(text)
  {
    var n := Atoi(text);
    if n == 0 then 3600 else if n < 25 then 25 else n
  }

  /**
   * For the digit strings the dialog accepts: empty or zero is one hour,
   * and a value that fits in an int is raised to at least 25 seconds.
   */
  lemma DialogTimeoutOfDigits(text: string)
    requires AllDigits(text)
    ensures DigitsValue(text) == 0 ==> DialogTimeout(text) == 3600
    ensures 0 < DigitsValue(text) <= IntMax ==>
              DialogTimeout(text) == if DigitsValue(text) < 25 then 25 else DigitsValue(text)
  {
    AtoiOfDigits(text);
  }

  /**
   * A digit string whose value is a multiple of 2^32 within a long passes
   * the dialog's check, reads as 0 through atoi and so stores one hour.
   */
  lemma DialogTimeoutOfIntMultiple(k: nat)
    requires 0 < k && k * 0x1_0000_0000 <= LongMax
    ensures AllDigits(NatToString(k * 0x1_0000_0000))
    ensures DigitsValue(NatToString(k * 0x1_0000_0000)) > IntMax
    ensures DialogTimeout(NatToString(k * 0x1_0000_0000)) == 3600
  {
    var n := k * 0x1_0000_0000;
    DecimalOfNatText(n);
    NatToStringValue(n);
    IntWrappedOfMultiple(k);
    assert LongSaturated(n) == n;
    assert Atoi(NatToString(n)) == 0;
  }

  /** The protocol the dialog works with: the menu's choice for a new account, else the stored one. */
  function DialogProtocol(editing: Option<Account>, menuChoice: int): (p: int)
    ensures editing.None? ==> p == menuChoice
    ensures editing.Some? ==> (p == 0 <==> editing.value.protocolName == Some("SIP"))
  {
    if editing.None? then menuChoice
    else if editing.value.protocolName == Some("SIP") then 0 else 1
  }

  /**
   * What pressing OK stores: None while the input is rejected (the dialog
   * shows an error and stays open), else the edited account, or a new one
   * with the ID `freshAid` when no account was being edited.
   */
  function DialogAccount(editing: Option<Account>, menuChoice: int, freshAid: string, d: DialogInput): (r: Option<Account>)
    ensures r.Some? <==> DialogValid(d)
    ensures r.Some? ==> r.value.timeout >= 25
    ensures r.Some? ==> r.value.accountName == Some(d.accountName) && r.value.host == Some(d.host)
                        && r.value.username == Some(d.username) && r.value.password == Some(d.password)
    ensures r.Some? && editing.Some? ==>
      (r.value.aid == editing.value.aid
       && r.value.protocolName == editing.value.protocolName
       && r.value.enabled == editing.value.enabled
       && r.value.isDefault == editing.value.isDefault
       && r.value.methodCode == editing.value.methodCode)
    ensures r.Some? && editing.None? ==>
      (r.value.aid == freshAid && !r.value.enabled && !r.value.isDefault
       && r.value.protocolName == Some(if menuChoice == 0 then "SIP" else "H323"))
  {
    if !DialogValid(d) then None
    else
      var protocol := DialogProtocol(editing, menuChoice);
      var base := editing.GetOr(NewAccount(freshAid));
      Some(base.(
        accountName := Some(d.accountName),
        host := Some(d.host),
        username := Some(d.username),
        domain := Some(DialogDomain(protocol, d)),
        authUsername := Some(DialogAuthUsername(d)),
        password := Some(d.password),
        timeout := DialogTimeout(d.timeout),
        protocolName := if editing.Some? then base.protocolName
                        else Some(if protocol == 0 then "SIP" else "H323")))
  }

  lemma PlainSlice(s: string, i: nat, j: nat)
    requires Plain(s) && i <= j <= |s|
    ensures Plain(s[i..j])
  {
  }

  /**
   * Every account the dialog accepts is stored and read back unchanged, as
   * long as its ID and (when editing) its protocol carry no separator.
   */
  lemma DialogAccountRoundTrips(editing: Option<Account>, menuChoice: int, freshAid: string, d: DialogInput)
    requires DialogValid(d)
    requires editing.None? ==> Plain(freshAid)
    requires editing.Some? ==> Plain(editing.value.aid) && PlainField(editing.value.protocolName)
                               && IsInt(editing.value.methodCode)
    ensures WellFormed(DialogAccount(editing, menuChoice, freshAid, d).value)
    ensures Parse(Serialize(DialogAccount(editing, menuChoice, freshAid, d).value), freshAid)
            == DialogAccount(editing, menuChoice, freshAid, d).value
  {
    var a := DialogAccount(editing, menuChoice, freshAid, d).value;
    var protocol := DialogProtocol(editing, menuChoice);
    var dom := DialogDomain(protocol, d);
    var au := DialogAuthUsername(d);
    PlainSlice(d.username, |d.username| - |HostPart(d.username)|, |d.username|);
    assert Plain(dom);
    assert Plain(au) by {
      if d.authUsername == [] {
        PlainSlice(d.username, 0, |au|);
        assert au == d.username[0..|au|];
      }
    }
    assert "SIP" == ['S', 'I', 'P'] && "H323" == ['H', '3', '2', '3'];
    assert WellFormed(a);
    ParseSerialize(a, freshAid);
  }

  /** gm_aw_get_selected_account: a row with timeout 0 is shown with the default hour. */
  function SelectedAccount(row: Account): (a: Account)
    ensures a.timeout != 0
    ensures a.timeout == row.timeout || (row.timeout == 0 && a.timeout == 3600)
    ensures a.(timeout := row.timeout) == row
  {
    if row.timeout == 0 then row.(timeout := 3600) else row
  }

}
