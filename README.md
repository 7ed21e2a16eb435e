# Ekiga core, modelled in Dafny

This project models the policy layer of the Ekiga softphone (formerly
GnomeMeeting) and proves properties of it. The GTK windows, the OPAL/PTLib
protocol stacks and the device drivers are not modelled: what they report
becomes a parameter of the model. The parts modelled are:

- **`Url`** (`src/endpoints/urlhandler.cpp`) is the dial-string resolver
  `GMURL`. It sorts a typed address into shortcut, callto, h323, sip or
  unsupported. `Parse` completes the address with a default domain or an
  H.323 gateway and splits off the port. The module renders the full,
  canonical and callto server/e-mail forms, matches and compares addresses,
  and holds the decision part of the URL handler: answer, call, forward or
  transfer.
- **`Accounts`** and **`AccountStore`** (`src/gui/accounts.cpp`,
  `src/gui/accounts.h`) hold the `GmAccount` record and its `'|'`-separated
  text form. `Accounts` has the edit dialog's validation and field
  defaults. `AccountStore` is the persisted list (class `AccountList`) with
  add, delete with default promotion, modify, toggle-active, set-default and
  the two first-match lookups.
- **`SipEndpoint`** (`lib/engine/components/opal/sip-endpoint.cpp`) is the
  newer `Opal::Sip::EndPoint`. It covers:
  - registration and the address of record;
  - the status-code texts and the events posted to the account bank;
  - message-waiting summaries;
  - dial and message checks;
  - the incoming-call decision and the one-shot "Ring Answer" flag;
  - DTMF mode;
  - the contact menu's URI expansion;
  - the host-to-AOR map behind the registered party name.
- **`LegacySip`** (`src/endpoints/sip.cpp`, `src/endpoints/sip.h`) is the
  older `GMSIPEndpoint`. It covers the admission decision and the no-answer
  timer, status texts, presence publishing, MESSAGE de-duplication by sender
  and Call-ID (section 20.8 of RFC 3261), message-waiting change detection,
  DTMF mode, the registered party name and listener interface matching. The
  two generations differ, for example in their DTMF encodings. They are kept
  apart.
- **`H323Connection`** (`src/connection.cpp`) covers jitter clamping, the
  four-flag logical-channel machine that refuses duplicate open and close
  events, the answer-mode decision and the `MSG[name] text` parser for user
  input.
- **`Process`** (`src/endpoints/ekiga.cpp`) covers the Connect/Disconnect
  dispatch on calling state and the post-processing of detected plugin,
  device and network-interface lists.
- **`FakeVideo`** (`src/devices/fakevideoinput.cpp`) is the still-picture
  and moving-logo video source. It covers its fixed answers, the centring of
  a still picture and the bouncing-logo motion.
- **`Base`**, **`Text`** and **`SipStatus`** are shared definitions:
  - `Base` holds Option, the calling states and the call-end reasons;
  - `Text` holds the PTLib `PString` and C string primitives the code uses
    (`Find`, `Replace`, `Trim`, `Left`, `Mid`, `%d`, `atoi`, `g_strsplit`);
  - `SipStatus` holds the SIP status code numbers of section 21 of RFC 3261
    and the cleaning of a MESSAGE's From header.

Code that changes state in place is modelled as classes with `modifies`
frames:

- `GMURL`, whose fields `Parse` rewrites;
- the account list;
- both SIP endpoints' one-shot flags, timers and dictionaries;
- the H.323 connection's flags;
- the process object's device and interface lists;
- the picture device.

Each method is tied to a function of its inputs and old state, and the
properties are proved about those functions.

## Model

| member | source | states |
|---|---|---|
| Url.ContainsChar | src/endpoints/urlhandler.cpp:162-168 | A one-character `Find` succeeds exactly when the character occurs in the address. |
| Url.ReplacePrefix | src/endpoints/urlhandler.cpp:77-100 | Replacing the first occurrence of a pattern the text starts with removes exactly that prefix. |
| Url.Classified | src/endpoints/urlhandler.cpp:68-112 | The tests on cleaned text give no port, and support exactly when they give a type. |
| Url.Construct | src/endpoints/urlhandler.cpp:64-113 | The constructed URL has no port yet, and it is supported exactly when it was given a type. |
| Url.ConstructSchemePrefix | src/endpoints/urlhandler.cpp:77-100 | A scheme at the start of the cleaned text sets the type and is stripped. callto is tested before h323, and h323 before sip. |
| Url.ConstructWithoutLeadingScheme | src/endpoints/urlhandler.cpp:101-112 | With no scheme name anywhere, the text is kept as it is: callto when it holds a '/', else sip. A scheme name that occurs only after the start makes the URL unsupported. |
| Url.ReplaceAtFirst | src/endpoints/urlhandler.cpp:66-68 | Replacing the first occurrence, found at j, with "" cuts out exactly the pattern's characters at j. |
| Url.ConstructShortcut | src/endpoints/urlhandler.cpp:64-76 | When the first '#' is the last character, the URL is a supported shortcut. The first occurrence of each scheme name is cut out in turn. Text without a scheme name is kept. Text holding one scheme name loses exactly that name's first occurrence, unless the cut joins a later scheme name together. |
| Url.CopyOf | src/endpoints/urlhandler.cpp:116-121 | The copy has the same address, type and support flag and an empty port. |
| Url.Completed | src/endpoints/urlhandler.cpp:162-191 | An empty address, a type other than sip or h323, and a SIP address needing no domain are kept. A SIP address needing a domain gains an '@'. An H.323 address changes exactly when the gateway must be added. |
| Url.Parsed | src/endpoints/urlhandler.cpp:142-205 | Type and support are kept and no ':' is left in the address. With a ':' in the completed address, address, ':' and port give it back. Without one, the address is the completed one and the old port stays. |
| Url.SipDefaultDomain | src/endpoints/urlhandler.cpp:177-184 | A SIP address without '@', '.' or '+' gets "@" plus the default account's host, when one is set. |
| Url.SipPhoneNumber | src/endpoints/urlhandler.cpp:168-176 | A "00" number, with the ekiga.net and phone accounts set up, becomes the number without "00", then "@" and the phone account's host. |
| Url.H323Gateway | src/endpoints/urlhandler.cpp:185-191 | An H.323 address gets "@" plus the gateway exactly when the gateway is set and not already in the address. |
| Url.CanonicalOfParsed | src/endpoints/urlhandler.cpp:192-198 | When the completed address has a ':' with text on both sides, the canonical form of the parsed URL is that completed address again. |
| Url.ParseSettles | src/endpoints/urlhandler.cpp:142-205 | Once a parsed URL needs no further completion, parsing it again changes nothing. |
| Url.ParseNotIdempotent | src/endpoints/urlhandler.cpp:162-198 | For "a:b.c" with a default host, parsing twice differs from parsing once, because the '.' leaves with the port. |
| Url.WithDefaultPort | src/endpoints/urlhandler.cpp:225-231 | An empty port of a SIP or H.323 URL becomes 5060 or 1720. Every other field and every other port is kept. |
| Url.FullText | src/endpoints/urlhandler.cpp:215-251 | A shortcut renders without its last character. A SIP or H.323 URL renders as "type:address" followed by its port suffix. A supported callto address that is not a directory address (no '/', or one holding "type") renders as "callto:address". An unsupported URL that is neither a shortcut, SIP, H.323 nor a callto directory address renders as "". |
| Url.FullTextPort | src/endpoints/urlhandler.cpp:232-243 | On a prepared SIP or H.323 state, the ":port" suffix follows the address exactly when the default port is asked for or the port is not the protocol default. |
| Url.FullUrlPort | src/endpoints/urlhandler.cpp:232-243 | For SIP and H.323, the ":port" suffix is written exactly when the default port is asked for or the port is not the protocol default. |
| Url.FullUrlUnsupported | src/endpoints/urlhandler.cpp:245-251 | A URL that is not supported renders as the empty text. |
| Url.FullUrlDirectory | src/endpoints/urlhandler.cpp:215-224 | A callto directory address without "type" renders as "callto:" plus the address plus "+type=directory". |
| Url.CleanIsCleaned | src/endpoints/urlhandler.cpp:66-70 | Text with no "//" and nothing to trim passes through the cleaning unchanged. |
| Url.SipTextSchemes | src/endpoints/urlhandler.cpp:77-100 | Text that starts with "sip:" starts with neither "callto:" nor "h323:". |
| Url.ConstructOfSipScheme | src/endpoints/urlhandler.cpp:93-100 | Cleaned text starting with "sip:" becomes a supported SIP URL of the rest. |
| Url.ConstructSipText | src/endpoints/urlhandler.cpp:64-100 | Clean text starting with "sip:" constructs the supported SIP URL of the rest, with no port. |
| Url.ParseSipAddress | src/endpoints/urlhandler.cpp:162-198 | "user@host:port" parses into the address "user@host" and the port. |
| Url.SipTextRoundTrip | src/endpoints/urlhandler.cpp:64-205 | "sip:user@host:port", constructed and parsed, gives back that address and port. |
| Url.SipFullUrlRoundTrip | src/endpoints/urlhandler.cpp:207-252 | The full URL of a parsed SIP address with a port, constructed and parsed again, gives the same address and port. |
| Url.Canonical | src/endpoints/urlhandler.cpp:255-263 | "address:port" exactly when both are non-empty, else the address alone. |
| Url.CalltoServer | src/endpoints/urlhandler.cpp:275-290 | For callto, a prefix of the address holding no '/', which is the whole address without a '/'. For every other type, "". |
| Url.CalltoEmail | src/endpoints/urlhandler.cpp:293-306 | "" for every other type and for a callto address without a '/'. CalltoParts states what it is when there is one. |
| Url.CalltoParts | src/endpoints/urlhandler.cpp:275-306 | Server, '/', and e-mail part together give back a callto address that holds a '/'. |
| Url.MatchesIsPrefix | src/endpoints/urlhandler.cpp:315-336 | Find is a non-empty prefix test. It matches on this URL's callto e-mail part when there is one, else the other's address against this address. |
| Url.MatchesIgnoresPort | src/endpoints/urlhandler.cpp:315-336 | The argument's port plays no part in Find, because the argument is passed by copy. |
| Url.EqualReflexiveBeforeParse | src/endpoints/urlhandler.cpp:339-349 | A URL with no port yet equals itself. |
| Url.SelfComparisonAfterParse | src/endpoints/urlhandler.cpp:116-121 | A parsed SIP URL with a port other than 5060 does not equal itself: the copy the comparison makes has lost the port. |
| Url.ParsedAddressSettled | src/endpoints/urlhandler.cpp:162-198 | A SIP address with an '@' and no ':' is left as it is by Parse. |
| Url.DifferentPortsDiffer | src/endpoints/urlhandler.cpp:339-349 | Two SIP texts whose ports differ other than in letter case are unequal. |
| Url.GMURL.Empty | src/endpoints/urlhandler.cpp:58-62 | The empty constructor gives an unsupported URL with no address. |
| Url.GMURL.constructor | src/endpoints/urlhandler.cpp:64-113 | The object holds the classification of `base`. |
| Url.GMURL.Classify | src/endpoints/urlhandler.cpp:68-112 | The branches on the cleaned text leave the fields equal to Classified of that text. |
| Url.GMURL.Copy | src/endpoints/urlhandler.cpp:116-121 | The copy constructor copies everything except the port. |
| Url.GMURL.Parse | src/endpoints/urlhandler.cpp:142-205 | The fields become the parsed state. |
| Url.GMURL.Complete | src/endpoints/urlhandler.cpp:162-191 | The address field becomes the completed address. |
| Url.GMURL.GetFullURL | src/endpoints/urlhandler.cpp:207-252 | Returns the full URL, and leaves the object parsed (when supported) with its default port set. |
| Url.GMURL.GetURL | src/endpoints/urlhandler.cpp:266-272 | Returns "type:" plus the canonical form after parsing a supported URL. |
| Url.GMURL.Find | src/endpoints/urlhandler.cpp:315-336 | Find on the argument's copy. |
| Url.GMURL.Equals | src/endpoints/urlhandler.cpp:339-349 | Compares the full URLs of this URL and of the argument's copy, ignoring case. |
| Url.Dispatch | src/endpoints/urlhandler.cpp:373-521 | In the called state without transfer, the handler only accepts. An empty URL does nothing and an unsupported one is reported invalid. Otherwise it calls while idle, forwards while called, and transfers in any other state. |
| Url.HandleUrl | src/endpoints/urlhandler.cpp:352-521 | The handler's action is Dispatch of its arguments. |
| Accounts.Fields | src/gui/accounts.cpp:321-340 | Every account has exactly twelve stored fields. |
| Accounts.Serialize | src/gui/accounts.cpp:321-340 | The stored text always holds the separator. ParseSerialize states that it reads back. |
| Accounts.NumberIsPlain | src/gui/accounts.cpp:321-340 | A printed number holds no '|'. |
| Accounts.FieldsArePlain | src/gui/accounts.cpp:321-340 | No field of a well-formed account holds '|'. |
| Accounts.ParseSerialize | src/gui/accounts.cpp:264-340 | Parsing the serialised text of an account gives the same account, when every string is set and free of '|' and both numbers fit in an int. |
| Accounts.NullFieldReadsBackAsText | src/gui/accounts.cpp:321-340 | A NULL string field is written "(null)" and read back as that text. |
| Accounts.ParseIgnoresFreshId | src/gui/accounts.cpp:264-319 | Once a line has three pieces, the aid gm_account_new generated is overwritten. |
| Accounts.ParseEmpty | src/gui/accounts.cpp:986-1008 | The empty line has no field. It reads as a new account: disabled, not default, 3600 s timeout, method 0. |
| Accounts.HostPart | src/gui/accounts.cpp:641-648 | SIPURL's host name, taken as a plain split: a suffix of the user name, the part after its first '@'. |
| Accounts.UserPart | src/gui/accounts.cpp:653-660 | SIPURL's user name, taken as a plain split: a prefix of the user name, the part before its first '@'. |
| Accounts.DialogDomain | src/gui/accounts.cpp:641-651 | An empty domain becomes the user name's host part (SIP, with '@'), the host (SIP), or "" (H.323). Anything else is kept. |
| Accounts.DialogAuthUsername | src/gui/accounts.cpp:653-660 | A given authentication user is kept. An empty one becomes a prefix of the user name: its user part, or the whole name. |
| Accounts.DialogTimeout | src/gui/accounts.cpp:663-666 | Always between 25 s and the int maximum. A timeout whose 32-bit `atoi` is 0 gives 3600. A value from 1 to 24, or negative, gives 25. One of 25 or more is kept. |
| Accounts.DialogTimeoutOfDigits | src/gui/accounts.cpp:395 | For text of digits only (the accepted form): empty or zero gives 3600, and any other value that fits in an int gives the larger of it and 25. |
| Accounts.DialogTimeoutOfIntMultiple | src/gui/accounts.cpp:663-664 | Digit text whose value is a non-zero multiple of 2^32 within a long, such as "4294967296", passes the check. It is beyond the int range, reads as 0 through atoi, and so stores 3600. |
| Accounts.DialogProtocol | src/gui/accounts.cpp:605-610 | The menu's choice for a new account; 0 for an edited SIP account, 1 otherwise. |
| Accounts.DialogAccount | src/gui/accounts.cpp:613-692 | OK stores an account exactly when the dialog's check passes. Names, host and password come from the dialog, and the timeout is at least 25 s. An edited account keeps its aid, protocol, flags and method. A new one gets the fresh aid, the menu's protocol and no flags. |
| Accounts.DialogAccountRoundTrips | src/gui/accounts.cpp:264-340 | Every account the dialog accepts reads back unchanged from its stored text. This holds when its aid and protocol hold no '|' and an edited account's method fits in an int. |
| Accounts.SelectedAccount | src/gui/accounts.cpp:777-778 | A row with timeout 0 is shown with 3600. Every other field is kept. |
| AccountStore.StoresUpdate | src/gui/accounts.cpp:1204-1224 | Rewriting one line with a well-formed account of the same aid keeps lines and accounts in step. |
| AccountStore.StoresAppend | src/gui/accounts.cpp:1094 | Appending a well-formed account with a new aid keeps lines and accounts in step. |
| AccountStore.StoresRemove | src/gui/accounts.cpp:1157-1168 | Removing one line keeps lines and accounts in step. |
| AccountStore.IndexOfId | src/gui/accounts.cpp:1127-1150 | The first index at or after k holding the aid, or None when none does. |
| AccountStore.ClearDefaults | src/gui/accounts.cpp:1077-1091 | The same entries with every default flag cleared. |
| AccountStore.Added | src/gui/accounts.cpp:1056-1102 | One entry longer, with the account as add stores it at the end: made default when the list was empty. |
| AccountStore.AddedDefaultIsOnlyDefault | src/gui/accounts.cpp:1069-1096 | After adding a default account, it is the single default of the whole list. |
| AccountStore.AddedNonDefaultKeepsEntries | src/gui/accounts.cpp:1069-1096 | Adding a non-default account to a non-empty list leaves every existing entry as it was. |
| AccountStore.AddedKeepsOneDefault | src/gui/accounts.cpp:1069-1096 | Both kinds of add keep "at most one default per protocol". |
| AccountStore.AddDoesNotDefaultNewProtocol | src/gui/accounts.h:98-106 | The header says an account becomes default when its protocol has none. The code does this only for an empty list: a SIP account added beside an H.323 default is not made default. |
| AccountStore.AddDefaultClearsOtherProtocols | src/gui/accounts.cpp:1077-1091 | Adding a SIP default clears the default flag of an H.323 account. |
| AccountStore.LastPromotableBefore | src/gui/accounts.cpp:1127-1150 | The last index below k with another aid of the same protocol, or None when there is no such index. |
| AccountStore.FirstPromotableFrom | src/gui/accounts.cpp:1127-1150 | The first index at or after k with another aid of the same protocol, or None when there is no such index. |
| AccountStore.RemoveAt | src/gui/accounts.cpp:1157-1168 | The list with entry m left out and the others in order. |
| AccountStore.DeletedRemovesTarget | src/gui/accounts.cpp:1105-1181 | After delete, no entry has the aid, and the list is one shorter exactly when one had it. |
| AccountStore.DeletedKeepsOthers | src/gui/accounts.cpp:1157-1172 | Ignoring default flags, the entries before the deleted one are kept and the ones after it move up by one. |
| AccountStore.DeletePromotesNeighbour | src/gui/accounts.cpp:1126-1172 | Deleting a default with another same-protocol account present promotes one: the last before it, else the first after it. |
| AccountStore.DeletedKeepsOneDefault | src/gui/accounts.cpp:1126-1172 | Deleting its protocol's only default keeps "at most one default per protocol". |
| AccountStore.DeletePromotesLastPreceding | src/gui/accounts.h:109-117 | The header promises the first same-protocol account is promoted. The code promotes the last one stored before the deleted entry. |
| AccountStore.Toggled | src/gui/accounts.cpp:1356-1401 | Same length, each entry as the toggle loop leaves it. The lemmas below state what that means. |
| AccountStore.ToggledFlipsTarget | src/gui/accounts.cpp:1377-1386 | The entry with the aid has its enabled flag flipped and nothing else changed. |
| AccountStore.ToggledOtherProtocol | src/gui/accounts.cpp:1377-1386 | Toggling a non-H.323 account changes only that account. |
| AccountStore.EnablingH323DisablesEarlierOnly | src/gui/accounts.cpp:1377-1386 | Enabling an H.323 account disables the other H.323 accounts stored before it, and leaves those after it as they were. |
| AccountStore.DisablingH323DisablesLater | src/gui/accounts.cpp:1377-1386 | Disabling an H.323 account disables the H.323 accounts stored after it, because the flag is overwritten at the match. |
| AccountStore.DefaultSet | src/gui/accounts.cpp:1417-1458 | Same length, each entry as the set_default loop leaves it. DefaultSetIsOnlyDefault states what that means. |
| AccountStore.DefaultSetIsOnlyDefault | src/gui/accounts.cpp:1417-1458 | Making an account default leaves it its protocol's only default and keeps "at most one default per protocol". |
| AccountStore.AccountList.constructor | src/gui/accounts.cpp:1238-1266 | An empty stored list. |
| AccountStore.AccountList.ReadAt | src/gui/accounts.cpp:264-319 | Parsing stored line i gives account i. |
| AccountStore.AccountList.FieldsAt | src/gui/accounts.cpp:1127-1130 | Splitting stored line i at '|' gives account i's fields. |
| AccountStore.AccountList.WriteAt | src/gui/accounts.cpp:1217-1222 | Line i becomes the text of the account, and the account list is updated at i. |
| AccountStore.AccountList.AppendLine | src/gui/accounts.cpp:1094 | The account's text is appended, and the account list grows by it. |
| AccountStore.AccountList.RemoveLine | src/gui/accounts.cpp:1157-1168 | Line k is removed, and the account list loses entry k. |
| AccountStore.AccountList.AccountsList | src/gui/accounts.cpp:1238-1266 | Every stored account, in order. |
| AccountStore.AccountList.Add | src/gui/accounts.cpp:1056-1102 | The list becomes Added of the old list, and the stored account is returned. |
| AccountStore.AccountList.ClearAllDefaults | src/gui/accounts.cpp:1077-1091 | The list becomes ClearDefaults of the old list. |
| AccountStore.AccountList.Delete | src/gui/accounts.cpp:1105-1181 | The list becomes Deleted of the old one, and the result says whether the aid was present. |
| AccountStore.ScanStep | src/gui/accounts.cpp:1127-1150 | One entry of the scan keeps what it knows: where the ID was seen, and which candidate default it would promote. |
| AccountStore.ScanDone | src/gui/accounts.cpp:1127-1150 | Where the scan stops, `found` says whether the ID is present, at the first index holding it, and the candidate is Promoted's. |
| AccountStore.AccountList.ScanForDelete | src/gui/accounts.cpp:1127-1150 | The scan finds the target's index and the candidate default that Deleted uses. |
| AccountStore.AccountList.Modify | src/gui/accounts.cpp:1184-1235 | The first entry with the aid is replaced and true is returned. With no such entry, nothing is written and false is returned. |
| AccountStore.AccountList.ToggleActive | src/gui/accounts.cpp:1356-1401 | The list becomes Toggled of the old one, and the account is returned with its flag as stored. |
| AccountStore.AccountList.ToggleEntry | src/gui/accounts.cpp:1372-1394 | One pass of the loop stores ToggledAt for the line. The account's flag is flipped once the pass reaches its aid. |
| AccountStore.AccountList.SetDefaultEntry | src/gui/accounts.cpp:1426-1451 | One pass of the loop stores SetDefaultAt for the line. It records whether the line is the account, matched by aid and protocol. |
| AccountStore.AccountList.SetDefault | src/gui/accounts.cpp:1404-1459 | No protocol or an empty list gives false and no change. Otherwise the list becomes DefaultSet, and the result says whether the aid was found. |
| AccountStore.AccountList.GetAccount | src/gui/accounts.cpp:1269-1310 | The first account whose domain or host equals the text ignoring ASCII case, or None when none does. |
| AccountStore.AccountList.GetDefaultAccount | src/gui/accounts.cpp:1313-1353 | The first default account of the protocol, ignoring ASCII case, or None when there is none. |
| SipEndpoint.ListenPort | lib/engine/components/opal/sip-endpoint.cpp:117 | Always a real port. A requested port is used as it is. |
| SipEndpoint.AorHost | lib/engine/components/opal/sip-endpoint.cpp:490-494 | The host cut before its first ':', and the whole host without one. |
| SipEndpoint.AorDomain | lib/engine/components/opal/sip-endpoint.cpp:446-456 | The text after the first '@', or "" without one. |
| SipEndpoint.AddressOfRecord | lib/engine/components/opal/sip-endpoint.cpp:495-499 | The user name when it holds '@', else user@host with the port cut from the host. |
| SipEndpoint.Register | lib/engine/components/opal/sip-endpoint.cpp:482-514 | Expiry is 0, which unregisters (section 10.2.2 of RFC 3261), exactly for a disabled account or a zero timeout. An enabled account asks for its timeout. The registrar keeps the full host. A request that cannot start reports a failure. |
| SipEndpoint.WithUriPrefix | lib/engine/components/opal/sip-endpoint.cpp:525-528 | "sip:" is added exactly when the AOR lacks it, and the result always holds it. |
| SipEndpoint.WithUriPrefixIdempotent | lib/engine/components/opal/sip-endpoint.cpp:525-528 | Adding the prefix twice is adding it once. |
| SipEndpoint.OnRegistered | lib/engine/components/opal/sip-endpoint.cpp:519-536 | Registered or Unregistered by was-registering. A message summary is subscribed exactly when not yet subscribed. |
| SipEndpoint.RegistrationFailureInfo | lib/engine/components/opal/sip-endpoint.cpp:553-776 | A total map: "" exactly for provisional and success codes, and "Failed" for every code not named. |
| SipEndpoint.LowFailureInfo | lib/engine/components/opal/sip-endpoint.cpp:556-602 | Codes below 400 that are not progress: a non-empty text, and "Failed" when not named. |
| SipEndpoint.RequestFailureInfo | lib/engine/components/opal/sip-endpoint.cpp:603-722 | Codes 400-499: a non-empty text, and "Failed" when not named. |
| SipEndpoint.ServerFailureInfo | lib/engine/components/opal/sip-endpoint.cpp:723-776 | Codes from 500: a non-empty text, and "Failed" when not named. |
| SipEndpoint.OnRegistrationFailed | lib/engine/components/opal/sip-endpoint.cpp:540-784 | No event exactly for RequestTerminated. Otherwise the event is RegistrationFailed or UnregistrationFailed by was-registering, with the prefixed AOR and the code's text. |
| SipEndpoint.RegistrationReportsShareAor | lib/engine/components/opal/sip-endpoint.cpp:525-535 | Success and failure reports for one AOR name the same account. |
| SipEndpoint.FindAccount | lib/engine/components/opal/sip-endpoint.cpp:1011-1020 | The first account with that AOR, or None when there is none. |
| SipEndpoint.RegistrationEventInMain | lib/engine/components/opal/sip-endpoint.cpp:1011-1020 | The matching account records the event, every other account is unchanged, and an unknown AOR changes nothing. |
| SipEndpoint.MwiReceivedInMain | lib/engine/components/opal/sip-endpoint.cpp:1039-1049 | The matching account records the summary, every other account is unchanged, and an unknown AOR changes nothing. |
| SipEndpoint.NormalizedMwi | lib/engine/components/opal/sip-endpoint.cpp:788-799 | The summary in lower case, with "no" read as "0/0". |
| SipEndpoint.NormalizedMwiIdempotent | lib/engine/components/opal/sip-endpoint.cpp:788-799 | Normalising twice is normalising once. |
| SipEndpoint.Subscribe | lib/engine/components/opal/sip-endpoint.cpp:460-468 | A subscription exactly for a "SIP" account. |
| SipEndpoint.Unsubscribe | lib/engine/components/opal/sip-endpoint.cpp:471-478 | An unsubscription exactly for a "SIP" account. |
| SipEndpoint.Dial | lib/engine/components/opal/sip-endpoint.cpp:290-308 | Accepted exactly for a "sip:" URI or one without ':'. "sip:" is added only in the second case. |
| SipEndpoint.DialSettles | lib/engine/components/opal/sip-endpoint.cpp:290-308 | A URI dial produced is dialled unchanged. |
| SipEndpoint.SendMessage | lib/engine/components/opal/sip-endpoint.cpp:273-286 | Sent exactly for a non-empty URI that dial accepts and a non-empty body, as plain text. |
| SipEndpoint.MessageableIsDialable | lib/engine/components/opal/sip-endpoint.cpp:273-308 | Whatever can be messaged can be dialled. |
| SipEndpoint.MessageCompleted | lib/engine/components/opal/sip-endpoint.cpp:891-913 | No notice for OK or RequestTimeout. "User offline" for TemporarilyUnavailable, and OPAL's description otherwise. |
| SipEndpoint.IncomingDecision | lib/engine/components/opal/sip-endpoint.cpp:812-837 | First match wins, each outcome stated as an if-and-only-if. It forwards exactly with a forward URI and either unconditional forwarding or busy forwarding during another call. It clears as busy during another call otherwise. For an Opal call it sets the no-answer forward, then auto-answers, else sets the reject delay. A connection that is not an Opal call gets nothing. |
| SipEndpoint.RingAnswerAnswersOnce | lib/engine/components/opal/sip-endpoint.cpp:853-860 | A "Ring Answer" INVITE arms the flag. The next call is answered, and the one after waits again. |
| SipEndpoint.InputModeFor | lib/engine/components/opal/sip-endpoint.cpp:319-334 | 0 is RFC 2833 and 1 is SIP INFO, sent as tones. Other values change nothing. |
| SipEndpoint.DtmfModeOf | lib/engine/components/opal/sip-endpoint.cpp:337-350 | 0 for RFC 2833, 1 for everything else. |
| SipEndpoint.DtmfRoundTrip | lib/engine/components/opal/sip-endpoint.cpp:319-350 | get_dtmf_mode reads back the 0 or 1 that set_dtmf_mode set. |
| SipEndpoint.Stripped | lib/engine/components/opal/sip-endpoint.cpp:196-201 | The URI with its spaces and dashes removed is no longer than the URI. |
| SipEndpoint.StrippedMeaning | lib/engine/components/opal/sip-endpoint.cpp:196-201 | The stripped URI holds no space or dash and only characters of the URI, and equals the URI when it had none. |
| SipEndpoint.StrippedConcat | lib/engine/components/opal/sip-endpoint.cpp:196-201 | Stripping distributes over concatenation. |
| SipEndpoint.StrippedErase | lib/engine/components/opal/sip-endpoint.cpp:196-201 | Erasing a separator does not change the stripped text. |
| SipEndpoint.StripSeparators | lib/engine/components/opal/sip-endpoint.cpp:196-201 | The erase loop returns the stripped URI. |
| SipEndpoint.ExpandedUris | lib/engine/components/opal/sip-endpoint.cpp:188-221 | At most one URI per account of the bank. |
| SipEndpoint.ExpandingNames | lib/engine/components/opal/sip-endpoint.cpp:188-221 | At most one name per account of the bank. |
| SipEndpoint.ExpandedLengths | lib/engine/components/opal/sip-endpoint.cpp:188-221 | There are as many expanded URIs as account names, so they pair up one to one. |
| SipEndpoint.ExpandForAccounts | lib/engine/components/opal/sip-endpoint.cpp:188-221 | The walk over the bank returns the expanded URIs and names. |
| SipEndpoint.AddActions | lib/engine/components/opal/sip-endpoint.cpp:223-264 | One call action per URI (called "transfer" while a connection exists), then one message action per URI. |
| SipEndpoint.MenuBuilderAddActions | lib/engine/components/opal/sip-endpoint.cpp:174-269 | Only for a URI dial takes: the actions for the menu's URIs, which are the expanded URIs without '@' and the URI itself with one. |
| SipEndpoint.StrippedOfSipPrefix | lib/engine/components/opal/sip-endpoint.cpp:196-209 | Stripping keeps a "sip:" prefix. |
| SipEndpoint.StrippedKeepsScheme | lib/engine/components/opal/sip-endpoint.cpp:196-209 | A URI starting with "sip:" still starts with it once stripped. |
| SipEndpoint.StrippedWithoutScheme | lib/engine/components/opal/sip-endpoint.cpp:196-209 | A URI without ':' contains no "sip:" once stripped, so the prefix is added. |
| SipEndpoint.ExpandedUriIsSip | lib/engine/components/opal/sip-endpoint.cpp:196-215 | Every expanded URI starts with "sip:", and dial takes it as it is. |
| SipEndpoint.SipUriDialled | lib/engine/components/opal/sip-endpoint.cpp:290-308 | Dial keeps a URI that starts with "sip:" unchanged. |
| SipEndpoint.MenuTargetsAreDialable | lib/engine/components/opal/sip-endpoint.cpp:174-308 | Every menu URI is one dial accepts, and for a URI without '@' dial takes it unchanged. |
| SipEndpoint.LastOnHost | lib/engine/components/opal/sip-endpoint.cpp:999-1007 | The index of the last account on the host, or None when there is none. |
| SipEndpoint.VisitedLastWriteWins | lib/engine/components/opal/sip-endpoint.cpp:999-1007 | After visiting the bank, each host maps to its last account's AOR, and other hosts keep their entries. |
| SipEndpoint.PartyName | lib/engine/components/opal/sip-endpoint.cpp:916-928 | The stored non-empty AOR for the host, else the default name. |
| SipEndpoint.PartyNameAfterUpdate | lib/engine/components/opal/sip-endpoint.cpp:916-1007 | After a bank update, a host's party name is its last account's AOR when that is non-empty. |
| SipEndpoint.EndPoint.constructor | lib/engine/components/opal/sip-endpoint.cpp:104-147 | The listen port, no forward URI, no one-shot answer, and an empty host map. |
| SipEndpoint.EndPoint.SetForwardUri | lib/engine/components/opal/sip-endpoint.cpp:403-406 | The forward URI becomes the given one. |
| SipEndpoint.EndPoint.SetDtmfMode | lib/engine/components/opal/sip-endpoint.cpp:319-334 | The input mode becomes InputModeFor of the old mode. |
| SipEndpoint.EndPoint.GetDtmfMode | lib/engine/components/opal/sip-endpoint.cpp:337-350 | DtmfModeOf the input mode. |
| SipEndpoint.EndPoint.OnReceivedInvite | lib/engine/components/opal/sip-endpoint.cpp:844-864 | A "Ring Answer" Alert-Info sets the one-shot flag. Anything else leaves it. |
| SipEndpoint.EndPoint.OnIncomingConnection | lib/engine/components/opal/sip-endpoint.cpp:803-841 | The decision on an accepted connection. Only auto-answer clears the flag. A connection OPAL refuses changes nothing. |
| SipEndpoint.EndPoint.VisitAccount | lib/engine/components/opal/sip-endpoint.cpp:999-1007 | The host map records the account's host and AOR. |
| SipEndpoint.EndPoint.OnBankUpdated | lib/engine/components/opal/sip-endpoint.cpp:991-995 | The host map becomes Visited of the old map and the bank. |
| SipEndpoint.EndPoint.GetRegisteredPartyName | lib/engine/components/opal/sip-endpoint.cpp:916-928 | Returns PartyName. A new host is inserted with an empty AOR. |
| SipEndpoint.EmptyInsertKeepsPartyNames | lib/engine/components/opal/sip-endpoint.cpp:916-928 | That empty insertion changes no later party name. |
| SipStatus.CleanFrom | src/endpoints/sip.cpp:614-620 | No ';' is left, and a '<' is always closed by a '>'. The result is a prefix of the header, or a prefix plus a closing '>'. A header with no ';' and no open '<' is kept. |
| SipStatus.CleanFromCutsAtFirstSemicolon | src/endpoints/sip.cpp:614-620 | The result is the header up to its first ';' (all of it without one), with a '>' added exactly when a '<' is left open there. |
| SipStatus.CleanFromIdempotent | lib/engine/components/opal/sip-endpoint.cpp:870-876 | Cleaning a cleaned From header changes nothing. |
| LegacySip.AdmissionReason | src/endpoints/sip.cpp:532-549 | First match wins: do-not-disturb rejects, then forward-always with a forward host set (even empty), then busy forward or reject when not idle, then free-for-chat answers, else ask. It forwards exactly when not in do-not-disturb and a forward host is set with always-forward, or with busy-forward outside Standby. It rejects exactly in do-not-disturb or when busy without such forwarding. |
| LegacySip.NoAnswerDelay | src/endpoints/sip.cpp:550-551 | The configured timeout, at most 60 s. |
| LegacySip.NoAnswerTimeout | src/endpoints/sip.cpp:752-780 | Nothing unless called. Then forward to the forward host when forward-on-no-answer is set, else clear every call as unanswered. |
| LegacySip.RegistrationFailureReason | src/endpoints/sip.cpp:425-458 | A total map with a default. UnAuthorised and Forbidden, and only they, give "Forbidden". |
| LegacySip.RegistrationFailed | src/endpoints/sip.cpp:408-481 | The text and account state, chosen by was-registering. |
| LegacySip.MessageFailureText | src/endpoints/sip.cpp:642-663 | A total map with a default. |
| LegacySip.PublishPresence | src/endpoints/sip.cpp:276-314 | "closed" exactly for offline and invisible, "open" otherwise. The other fields come from the state. |
| LegacySip.Registered | src/endpoints/sip.cpp:317-404 | The configured status when registering, else offline. A message summary is subscribed only when not yet subscribed. |
| LegacySip.LegacyInputModeFor | src/endpoints/sip.cpp:254-272 | 0 sends tones and 1 RFC 2833. Other values leave the mode alone. |
| LegacySip.OppositeDtmfEncodings | src/endpoints/sip.cpp:263-271 | The legacy and newer endpoints read the configured 0 and 1 as opposite encodings. |
| LegacySip.RetransmissionSuppressed | src/endpoints/sip.cpp:614-629 | Once a sender's message with a Call-ID is delivered, a retransmission is not. |
| LegacySip.OtherSendersUnaffected | src/endpoints/sip.cpp:614-629 | Delivering one sender's message changes no other sender's result. |
| LegacySip.AccountAor | src/endpoints/sip.cpp:695-709 | The user name when it names a domain, else user@host. |
| LegacySip.RegisteredPartyName | src/endpoints/sip.cpp:681-711 | An enabled default SIP account gives its AOR when no registration is known or the registration is for its host. Otherwise a known registration gives its address, also when an enabled default account's host differs from the registration's host. OPAL's default is used when there is neither. |
| LegacySip.PartyNameIsRegisteredAor | src/endpoints/sip.cpp:681-711 | For a host without a port, the legacy party name is the AOR the newer endpoint registers. |
| LegacySip.LastLabelMatch | src/endpoints/sip.cpp:139-150 | The last interface whose "name [address]" label is the configured text, or None when none is. |
| LegacySip.FirstNameMatch | src/endpoints/sip.cpp:151-163 | The first interface named like the configured name, or None when none is. |
| LegacySip.ListenOnLabelledInterface | src/endpoints/sip.cpp:122-172 | With a unique label, choosing that label listens on the interface's address. |
| LegacySip.FindListenTarget | src/endpoints/sip.cpp:122-172 | The two loops return ListenTarget: by label first, then by name. |
| LegacySip.ScanLabels | src/endpoints/sip.cpp:139-150 | The first loop, which never stops early, ends on LastLabelMatch: the last interface whose label matches. |
| LegacySip.ScanNames | src/endpoints/sip.cpp:151-163 | The second loop stops at FirstNameMatch: the first interface with the name. |
| LegacySip.StartListener | src/endpoints/sip.cpp:122-172 | Listens on the chosen interface, when there is one and OPAL starts it. |
| LegacySip.GMSIPEndpoint.constructor | src/endpoints/sip.cpp:70-76 | An empty dictionary, a stopped timer and no summary. |
| LegacySip.GMSIPEndpoint.OnIncomingConnection | src/endpoints/sip.cpp:496-551 | The current call's own connection is accepted at once. Otherwise AdmissionReason decides, and only ask arms the timer with NoAnswerDelay. |
| LegacySip.GMSIPEndpoint.OnEstablished | src/endpoints/sip.cpp:715-723 | The no-answer timer stops. |
| LegacySip.GMSIPEndpoint.OnReleased | src/endpoints/sip.cpp:725-733 | The no-answer timer stops. |
| LegacySip.GMSIPEndpoint.OnNoAnswerTimeout | src/endpoints/sip.cpp:752-780 | The timer stops and NoAnswerTimeout acts. |
| LegacySip.GMSIPEndpoint.OnReceivedMessage | src/endpoints/sip.cpp:607-630 | Delivered exactly when new for the cleaned sender. The stored Call-ID changes only on delivery. |
| LegacySip.GMSIPEndpoint.OnMwiReceived | src/endpoints/sip.cpp:560-604 | An unchanged summary does nothing; otherwise it is stored. A sound plays only when the total rises. |
| LegacySip.GMSIPEndpoint.SetUserInputMode | src/endpoints/sip.cpp:254-272 | The mode becomes LegacyInputModeFor. |
| H323Connection.ClampedJitter | src/connection.cpp:88 | (max(min, 20), min(max, 1000)). |
| H323Connection.ClampedJitterIdempotent | src/connection.cpp:88 | Clamping clamped bounds changes nothing. |
| H323Connection.With | src/connection.cpp:129-140 | The selected flag becomes b, and the other three are unchanged. |
| H323Connection.ChannelStep | src/connection.cpp:122-140 | A refused event changes nothing. Otherwise the selected flag opens or closes and the others are unchanged. |
| H323Connection.SecondTransmitterOpenRefused | src/connection.cpp:122-126 | A second open of a transmitter is refused. |
| H323Connection.SecondReceiverCloseRefused | src/connection.cpp:122-126 | A second close of a receiver is refused. |
| H323Connection.OpenThenCloseRestores | src/connection.cpp:122-140 | Opening then closing a closed channel restores every flag. |
| H323Connection.Connection.constructor | src/connection.cpp:61-90 | No channel open, and the jitter clamped. |
| H323Connection.Connection.OnLogicalChannel | src/connection.cpp:106-181 | The flags become ChannelStep. The result is true exactly when not refused and either closing or the base start succeeds, so a failed start leaves the flag set. |
| H323Connection.Connection.OnStartLogicalChannel | src/connection.cpp:99-103 | OnLogicalChannel for an opening. |
| H323Connection.Connection.OnClosedLogicalChannel | src/connection.cpp:92-97 | OnLogicalChannel for a closing. |
| H323Connection.OnAnswerCall | src/connection.cpp:184-213 | AnswerCallNow exactly in free-for-chat mode. |
| H323Connection.ParsedUserInput | src/connection.cpp:216-243 | With the first '[' at index 3 a sender and text are always read. Otherwise they are read exactly when the text holds "MSG": the text from index 3 on, from the remote party. |
| H323Connection.UserInput | src/connection.cpp:216-255 | A chat line is inserted exactly when input was read and the sender's name is not empty after the cut and conversion. The line has that displayed name and the read text. |
| H323Connection.McuTextBracket | src/connection.cpp:229 | An MCU line's first '[' is at index 3. |
| H323Connection.McuTextFields | src/connection.cpp:232-236 | The Mid and MidFrom of an MCU line give the name and the text. |
| H323Connection.McuTextClose | src/connection.cpp:232 | The first "] " of an MCU line closes the name, when the name holds no "] ". |
| H323Connection.McuTextParses | src/connection.cpp:229-236 | "MSG[name] text" is read as the name and " text", when the name holds no "] ". |
| H323Connection.McuTextRoundTrip | src/connection.cpp:229-255 | "MSG[name] text" becomes a chat line from the name with " text". This holds when the name holds no "] ", is not empty and is left unchanged by the cut and conversion. |
| H323Connection.McuTextEmptyNameIgnored | src/connection.cpp:247-255 | "MSG[] text" inserts no chat line. |
| H323Connection.EmptyRemotePartyIgnored | src/connection.cpp:237-255 | Plain "MSG" input from a remote party whose displayed name is empty inserts no chat line. |
| Process.Connect | src/endpoints/ekiga.cpp:97-113 | Answer exactly when called. Call exactly when idle with a non-blank URL. Nothing otherwise. |
| Process.ConnectEmptyDoesNothing | src/endpoints/ekiga.cpp:100-113 | An empty dial string never places a call. |
| Process.ConnectStartsHandler | src/endpoints/ekiga.cpp:100-113 | The handler started when called answers. A placed URL is dialled when supported and reported invalid when not. |
| Process.Disconnect | src/endpoints/ekiga.cpp:118-146 | Calling clears with the given reason. Connected clears every call as the local user. Any other state refuses the call. |
| Process.DisconnectReasonOnlyWhileCalling | src/endpoints/ekiga.cpp:125-146 | The reason matters only while calling. |
| Process.IndexOf | src/endpoints/ekiga.cpp:311-313 | The first index holding the value, or None when it is absent. |
| Process.RemoveFirst | src/endpoints/ekiga.cpp:311-313 | The list minus one occurrence of the value: the first one, when there is any. |
| Process.OrPlaceholder | src/endpoints/ekiga.cpp:348-353 | Non-empty: the list, or "No device found" alone. |
| Process.PictureSurvivesFakeRemoval | src/endpoints/ekiga.cpp:311-336 | Removing the fake plugin never hides the picture plugin. |
| Process.FakeVideoRemoved | src/endpoints/ekiga.cpp:311-313 | A list naming the fake plugin once no longer names it. |
| Process.ConfiguredIndex | src/endpoints/ekiga.cpp:230-249 | The first interface matching the configured one by label or name, or the table's length when none does. |
| Process.WithSlot0 | src/endpoints/ekiga.cpp:251-266 | A non-empty list. An empty one gets one empty entry. |
| Process.ListedNext | src/endpoints/ekiga.cpp:211-277 | One more table entry is one more step. |
| Process.ListedSound | src/endpoints/ekiga.cpp:251-266 | Each listed entry is a placeholder or the label of the configured or an admitted interface: one with an address that is ppp or not loopback. |
| Process.StepKeepsOrAdds | src/endpoints/ekiga.cpp:251-266 | A step's entries are the new label, a placeholder, or earlier entries. |
| Process.StepAddsOnlyListable | src/endpoints/ekiga.cpp:251-266 | A step writes a label only for a configured or admitted interface. |
| Process.StepKeeps | src/endpoints/ekiga.cpp:251-266 | A step keeps every non-empty entry, and adds the label of a configured or admitted interface. |
| Process.ListedCompleteAt | src/endpoints/ekiga.cpp:251-266 | One configured or admitted interface among the first n is listed after n steps. |
| Process.ListedComplete | src/endpoints/ekiga.cpp:251-266 | Every configured or admitted interface is listed. |
| Process.LabelNotEmpty | src/endpoints/ekiga.cpp:251-266 | A label is never the empty placeholder. |
| Process.ConfiguredStaysFirst | src/endpoints/ekiga.cpp:251-266 | Without a later configured or ppp step, the front entry stays. |
| Process.GnomeMeeting.constructor | src/endpoints/ekiga.cpp:71-88 | Empty device and interface lists. |
| Process.GnomeMeeting.DetectDevices | src/endpoints/ekiga.cpp:290-353 | True exactly with the picture plugin and some audio plugin. On success the fake plugin is dropped and the three device lists get placeholders. On failure they are unchanged. |
| Process.GnomeMeeting.AddInterface | src/endpoints/ekiga.cpp:251-266 | The interface list becomes ListStep. |
| Process.GnomeMeeting.DetectInterfaces | src/endpoints/ekiga.cpp:208-277 | Returns whether the table was read, and the interface list becomes DetectedInterfaces. |
| Process.FindConfigured | src/endpoints/ekiga.cpp:230-249 | The first loop returns ConfiguredIndex. |
| FakeVideo.InputDeviceNames | src/devices/fakevideoinput.cpp:202-211 | Two device names: "StaticPicture", then "MovingLogo". |
| FakeVideo.FrameSizeLimits | src/devices/fakevideoinput.cpp:412-425 | 10x10 to 1000x800. |
| FakeVideo.Parameters | src/devices/fakevideoinput.cpp:427-440 | Every picture parameter is 0. |
| FakeVideo.NumChannels | src/devices/fakevideoinput.cpp:376-381 | One channel. |
| FakeVideo.SetChannel | src/devices/fakevideoinput.cpp:383-388 | Every channel is accepted. |
| FakeVideo.UnsignedDiff | src/devices/fakevideoinput.cpp:279-286 | The 32-bit unsigned difference: the true one when it is not negative, wrapped otherwise. |
| FakeVideo.CentreOffset | src/devices/fakevideoinput.cpp:279-286 | Fitting pixels are centred to within one. The offset always stays non-negative below 2^31. |
| FakeVideo.StaticPlacement | src/devices/fakevideoinput.cpp:279-300 | A picture that fits is centred at ((w-ow)/2, (h-oh)/2); otherwise it is scaled. |
| FakeVideo.Bounce | src/devices/fakevideoinput.cpp:329-334 | The position gains the increment. The increment becomes +1 above the top margin of 10 and -1 past the lower turning point. The top test wins, and in between the increment is kept. |
| FakeVideo.BounceKeepsSane | src/devices/fakevideoinput.cpp:329-334 | The motion keeps a one-pixel increment and a non-negative position. |
| FakeVideo.BounceStaysWithinFrame | src/devices/fakevideoinput.cpp:329-334 | In a fixed frame, the logo stays within the turning points, give or take a pixel. |
| FakeVideo.StartMotionSane | src/devices/fakevideoinput.cpp:53-63 | The starting motion is sane. |
| FakeVideo.BounceForever | src/devices/fakevideoinput.cpp:329-334 | Every later frame of a fixed size stays sane and within the frame. |
| FakeVideo.PictureDevice.constructor | src/devices/fakevideoinput.cpp:53-63 | Closed, at the top moving down, still, rate 1. |
| FakeVideo.PictureDevice.Open | src/devices/fakevideoinput.cpp:74-143 | Fails when open. "MovingLogo" sets moving, and a picture loads only when readable. |
| FakeVideo.PictureDevice.Close | src/devices/fakevideoinput.cpp:157-176 | Both pixbufs are released. |
| FakeVideo.PictureDevice.SetFrameRate | src/devices/fakevideoinput.cpp:400-409 | The argument is ignored: 12 when moving, else 1. |
| FakeVideo.PictureDevice.SetColourFormat | src/devices/fakevideoinput.cpp:390-397 | Only "RGB32", and then only when the base accepts. |
| FakeVideo.PictureDevice.GetFrameDataNoDelay | src/devices/fakevideoinput.cpp:238-343 | Nothing without a picture. A still picture is placed. The moving logo is drawn at pos, and then Bounce moves it. |

## Left out

- `set_listen_port` (sip-endpoint.cpp): it depends entirely on OPAL's `StartListeners`.
- `OnDialogInfoReceived` and the newer endpoint's `OnReceivedMESSAGE` push to the chat
  window: they only forward OPAL data to the GUI. The From cleaning in the latter is `SipStatus.CleanFrom`.
- Threads, mutexes, the subscriber thread, the URL handler's thread shell and
  `run_in_main`: posting to the main loop is a plain call, and locks are not modelled.
- GUI widgets, tray, status-bar messages, sound playback, D-Bus and the history window.
  Their effects appear at most as recorded values (a played sound is a flag).
- The GTK parts of the accounts window: the dialog widgets and the tree-model sync.
- `AccountStore.AccountList`: the store starts empty, and every line it holds is the text of an account it wrote. Lines that other programs or versions put in the configuration key are not modelled.
- `gm_account_copy` (accounts.cpp:1029-1053) is not a separate member. Accounts are values here, so a copy is the account itself, with its aid.
- OPAL/PTLib and GLib collaborators are parameters:
  - `Sanitise`, and the SIPURL parse of a received message's sender;
  - `IsSubscribed`, `Register`, `ForwardCall` and `ClearCall`;
  - the aid generator;
  - the configuration store;
  - interface and device enumeration;
  - `IsLoopback`;
  - `GetMWI`, read as a number;
  - the manager's `OnIncomingConnection`.
- H.225/H.245 PDU handling in `src/connection.cpp` (`OnReceivedFacility`, `HandleCallTransferFailure`,
  `OnRequestModeChange`): binary protocol data units.
- Media-format and codec lists, `DetectCodecs`, and the timers' real-time behaviour.
  Only the timer's armed state and interval are kept.
- The Quicknet block in `DetectDevices` is guarded by a misspelt `HAX_IXJ` macro and is never compiled.
- FakeVideo: the pixel work, the floating-point scale-to-fit, frame pacing and `Start`/`Stop`/`TestAllFormats` are not modelled.
  `IsCapturing` recurses without end, and `pos` is an int (the class header is not part of this model).
- `_()` translations: the English texts are used.
- Status code numbers: OPAL's `sippdu.h` is not part of this model. The codes are those of
  section 21 of RFC 3261, and OPAL's local codes are taken as 1-3, illegal as 0, maximum as 699.
- `FREE_FOR_CHAT` is not declared in `src/common.h`. `H323Connection.OnAnswerCall` takes it as 1.
- PTLib semantics are assumed:
  - `PINDEX` is signed;
  - finding an empty pattern fails;
  - `Replace` replaces the first occurrence;
  - `PStringArray`'s `operator[]` grows the array;
  - a NULL `PString` is "".
- `Url.GMURL.GetFullURL`: the default of `include_default_port` is in `urlhandler.h`, which is not part of
  this model, so it is a parameter.
- `H323Connection.UserInput`: when a line has '[' at index 3 but no "] ", the first `Mid`'s length
  `P_MAX_INDEX - 4` is positive, so the name runs to the end. The start `P_MAX_INDEX + 1` of the second
  `Mid` overflows `PINDEX`, and the model takes the text as "" there.
- `H323Connection.UserInput`: `gnomemeeting_pstring_cut` and the ISO-8859-1 to UTF-8 conversion are not part
  of this model. Together they are the parameter `display`, taken as a function of the name alone.
  The chat window being shown is a GUI effect and is not modelled.
- `Accounts.HostPart` and `Accounts.UserPart`: PTLib's `SIPURL(username).GetHostName()` and
  `GetUserName()` are taken as a split at the first '@'. The model therefore keeps a "sip:" scheme in
  the user part and a ":port" or ";params" in the host part, where SIPURL drops them.
  `Accounts.DialogDomain` and `Accounts.DialogAuthUsername` inherit this.
- `Text.Atoi` is glibc's `atoi` on an LP64 system: `strtol` saturates at the 64-bit long range, and the cast to int
  keeps the low 32 bits. ISO C leaves an out-of-range `atoi` undefined. `Accounts.DialogTimeout` and
  `Accounts.Parse` rely on this reading.
- `Accounts.Parse`: the `gboolean` flags `enabled` and `default_account` keep atoi's int in the source. The
  model holds them as booleans, so a stored "2" reads back as TRUE and is written again as "1".
- `SipEndpoint.FindAccount`: the account bank's own lookup is taken as the first account with the AOR.
- `AccountStore.AccountList.SetDefault`: it is proved for the flag the callers pass (TRUE). With
  FALSE, the code would make every other same-protocol entry default; DefaultSet models this too.
