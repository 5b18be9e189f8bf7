/**
  The login webhook of api/handler/hook_login.go: a hotspot login is recorded as a sale
  unless the same user of the same device already has one within the validity window.
 */
module HookLogin {
  import Decimal
  import Duration
  import MixedRadix
  import opened Wrappers

  const LOGIN_COMMENT := "login"
  const DAY := 86_400 * Duration.SECOND

  datatype Profile = Profile(expiryMode: string, price: int, sellPrice: int, validity: string)

  datatype Request = Request(secret: string, deviceId: string, user: string, mac: string, ip: string, profile: string)

  datatype Transaction = Transaction(device: nat, username: string, price: int, sellPrice: int,
                                     ip: string, mac: string, validity: string, profile: string,
                                     comment: string, createdAt: int)

  datatype Reason = MissingProfile | ProfileNotConfigured | NonRecordingMode | AlreadyRecorded

  datatype Response =
    | Unauthorized
    | InvalidDeviceId
    | MissingUser
    | DeviceNotFound
    | NotRecorded(reason: Reason)
    | Recorded(id: nat)

  /** A row that somebody else put into the table: POST /reports/sales leaves the comment empty. */
  type OtherSale = t: Transaction | t.comment != LOGIN_COMMENT
    witness Transaction(0, "", 0, 0, "", "", "", "", "", 0)

  /**
    One call: when it happens, what it carries, the devices and profiles it finds, and the
    rows that others inserted since the call before.
   */
  datatype Call = Call(now: int, request: Request, devices: set<nat>, profiles: map<(nat, string), Profile>,
                       others: seq<OtherSale>)

  // ---------------------------------------------------------------- reading a request

  /** strconv.ParseUint in base ten with 64 bits. */
  function ParseUint(s: string): Option<nat> {
    if s != "" && Decimal.AllDigits(s) && Decimal.Value(s) < 0x1_0000_0000_0000_0000 then Some(Decimal.Value(s))
    else None
  }

  function Truncate(s: string, maxLen: nat): string {
    if |s| <= maxLen then s else s[..maxLen]
  }

  function UserOf(r: Request): string {
    Truncate(Duration.TrimSpace(r.user), 128)
  }

  function ProfileOf(r: Request): string {
    Truncate(Duration.TrimSpace(r.profile), 64)
  }

  datatype Mode = NoMode | Remove | Notice | RemoveRecord | NoticeRecord

  function ParseExpiredMode(s: string): Option<Mode> {
    if s == "" || s == "none" || s == "0" then Some(NoMode)
    else if s == "rem" then Some(Remove)
    else if s == "ntf" then Some(Notice)
    else if s == "remc" then Some(RemoveRecord)
    else if s == "ntfc" then Some(NoticeRecord)
    else None
  }

  predicate RecordsTransaction(m: Mode) {
    m == RemoveRecord || m == NoticeRecord
  }

  /** The deduplication window of a profile, in nanoseconds: 24 hours when the validity is unreadable or zero. */
  function Window(validity: string): int {
    match Duration.Parsed(validity)
    case Failure(_) => DAY
    case Success(d) => if d == 0 then DAY else d
  }

  /** Every check before the deduplication: the profile to record a sale for, or the answer. */
  function Check(secret: string, c: Call): Result<Profile, Response> {
    if secret != "" && c.request.secret != secret then Failure(Unauthorized)
    else if ParseUint(c.request.deviceId).None? then Failure(InvalidDeviceId)
    else if Duration.TrimSpace(c.request.user) == "" then Failure(MissingUser)
    else if ParseUint(c.request.deviceId).value !in c.devices then Failure(DeviceNotFound)
    else if ProfileOf(c.request) == "" then Failure(NotRecorded(MissingProfile))
    else
      var key := (ParseUint(c.request.deviceId).value, ProfileOf(c.request));
      if key !in c.profiles then Failure(NotRecorded(ProfileNotConfigured))
      else
        var mode := ParseExpiredMode(c.profiles[key].expiryMode);
        if mode.None? || !RecordsTransaction(mode.value) then Failure(NotRecorded(NonRecordingMode))
        else Success(c.profiles[key])
  }

  /** The device an id in the path names: its decimal numeral, within 64 bits. */
  ghost predicate Names(deviceId: string, device: nat) {
    device < 0x1_0000_0000_0000_0000 && Decimal.IsNumeral(deviceId, device)
  }

  lemma ParseUintReads(s: string, n: nat)
    ensures ParseUint(s) == Some(n) <==> Names(s, n)
  {
    Decimal.ValueIsNumeral(s, n);
  }

  /** `t` is `s` cut after `max` characters. */
  predicate IsCut(s: string, max: nat, t: string) {
    t <= s && |t| == if |s| < max then |s| else max
  }

  /** A call shows the secret that is asked for, and names a known device and a user. */
  ghost predicate IsAddressed(secret: string, c: Call) {
    && (secret == "" || c.request.secret == secret)
    && (exists device: nat :: Names(c.request.deviceId, device) && device in c.devices)
    && !Duration.AllSpaces(c.request.user)
  }

  /** The device it names has this profile under the profile name it carries. */
  ghost predicate Configures(c: Call, name: string, p: Profile) {
    && IsCut(Duration.TrimSpace(c.request.profile), 64, name) && name != ""
    && exists device: nat :: Names(c.request.deviceId, device) && (device, name) in c.profiles
                             && c.profiles[(device, name)] == p
  }

  /**
    A call gets as far as the deduplication, with this profile, exactly when it is addressed
    and its device has a profile of that name in one of the two recording modes.
   */
  lemma CheckPassesIff(secret: string, c: Call, p: Profile)
    ensures Check(secret, c) == Success(p) <==>
              (IsAddressed(secret, c) && p.expiryMode in {"remc", "ntfc"} && exists name :: Configures(c, name, p))
  {
    DeviceRead(c);
    var _, _ := Duration.TrimSplits(c.request.user);
    OneName(c, p);
  }

  /** The name under which a call finds a profile is the one it carries. */
  lemma OneName(c: Call, p: Profile)
    ensures (exists name :: Configures(c, name, p)) <==> Configures(c, ProfileOf(c.request), p)
  {
    forall name | Configures(c, name, p) ensures name == ProfileOf(c.request) {
    }
  }

  lemma DeviceRead(c: Call)
    ensures forall n: nat :: ParseUint(c.request.deviceId) == Some(n) <==> Names(c.request.deviceId, n)
  {
    forall n: nat ensures ParseUint(c.request.deviceId) == Some(n) <==> Names(c.request.deviceId, n) {
      ParseUintReads(c.request.deviceId, n);
    }
  }

  /** What a refused call is told: the first thing that is wrong with it, in this order. */
  lemma RefusalsInOrder(secret: string, c: Call)
    requires Check(secret, c).Failure?
    ensures var r, id := c.request, c.request.deviceId;
      Check(secret, c).error ==
      if secret != "" && r.secret != secret then Unauthorized
      else if forall n: nat :: !Names(id, n) then InvalidDeviceId
      else if Duration.AllSpaces(r.user) then MissingUser
      else if forall n: nat :: Names(id, n) ==> n !in c.devices then DeviceNotFound
      else if Duration.AllSpaces(r.profile) then NotRecorded(MissingProfile)
      else if forall name, p :: !Configures(c, name, p) then NotRecorded(ProfileNotConfigured)
      else NotRecorded(NonRecordingMode)
  {
    DeviceRead(c);
    var _, _ := Duration.TrimSplits(c.request.user);
    var _, _ := Duration.TrimSplits(c.request.profile);
    var name := ProfileOf(c.request);
    assert IsCut(Duration.TrimSpace(c.request.profile), 64, name);
    forall other, p | Configures(c, other, p) ensures other == name {
    }
    if ParseUint(c.request.deviceId).Some? {
      var device := ParseUint(c.request.deviceId).value;
      assert Names(c.request.deviceId, device);
      if name != "" && (device, name) in c.profiles {
        assert Configures(c, name, c.profiles[(device, name)]);
      }
    }
  }

  lemma CheckedHasDevice(secret: string, c: Call)
    requires Check(secret, c).Success?
    ensures ParseUint(c.request.deviceId).Some? && UserOf(c.request) != ""
    ensures Check(secret, c).value.expiryMode in {"remc", "ntfc"}
  {
    assert |UserOf(c.request)| > 0;
  }

  /** The row a call inserts. */
  function SaleOf(c: Call, p: Profile): Transaction
    requires ParseUint(c.request.deviceId).Some?
  {
    Transaction(ParseUint(c.request.deviceId).value, UserOf(c.request), p.price, p.sellPrice,
                Truncate(Duration.TrimSpace(c.request.ip), 45), Truncate(Duration.TrimSpace(c.request.mac), 17),
                p.validity, ProfileOf(c.request), LOGIN_COMMENT, c.now)
  }

  /** ExistsByUserCommentSince. */
  predicate ExistsSince(table: seq<Transaction>, device: nat, username: string, comment: string, since: int) {
    exists i :: 0 <= i < |table| && SameUser(table[i], device, username, comment) && table[i].createdAt > since
  }

  predicate SameUser(t: Transaction, device: nat, username: string, comment: string) {
    t.device == device && t.username == username && t.comment == comment
  }

  function Answer(secret: string, c: Call, table: seq<Transaction>): Response {
    match Check(secret, c)
    case Failure(response) => response
    case Success(p) =>
      CheckedHasDevice(secret, c);
      var device := ParseUint(c.request.deviceId).value;
      if ExistsSince(table, device, UserOf(c.request), LOGIN_COMMENT, c.now - Window(p.validity))
      then NotRecorded(AlreadyRecorded)
      else Recorded(|table|)
  }

  function TableAfter(secret: string, c: Call, table: seq<Transaction>): seq<Transaction> {
    if Answer(secret, c, table).Recorded?
    then
      CheckedHasDevice(secret, c);
      table + [SaleOf(c, Check(secret, c).value)]
    else table
  }

  /**
    The row of a recorded sale: device, user and profile of the call, prices and validity of
    the profile, and the moment of the call.
   */
  lemma SaleRecords(secret: string, c: Call, table: seq<Transaction>)
    requires Answer(secret, c, table).Recorded?
    ensures var after := TableAfter(secret, c, table);
      && |after| == |table| + 1 && after[..|table|] == table
      && var t := after[|table|];
      && Names(c.request.deviceId, t.device) && t.device in c.devices && (t.device, t.profile) in c.profiles
      && var p := c.profiles[(t.device, t.profile)];
      && p.expiryMode in {"remc", "ntfc"}
      && t.price == p.price && t.sellPrice == p.sellPrice && t.validity == p.validity
      && IsCut(Duration.TrimSpace(c.request.user), 128, t.username) && t.username != ""
      && IsCut(Duration.TrimSpace(c.request.profile), 64, t.profile)
      && IsCut(Duration.TrimSpace(c.request.ip), 45, t.ip) && IsCut(Duration.TrimSpace(c.request.mac), 17, t.mac)
      && t.comment == "login" && t.createdAt == c.now
  {
    DeviceRead(c);
    CheckedHasDevice(secret, c);
  }

  /**
    The window of a validity: what it is worth as a duration, and 24 hours when it cannot be
    read or is worth nothing.
   */
  ghost predicate IsWindow(validity: string, window: int) {
    if exists d :: d != 0 && Duration.Parsed(validity) == Success(d) then Duration.Parsed(validity) == Success(window)
    else window == 86_400_000_000_000
  }

  lemma WindowIs(validity: string, window: int)
    ensures IsWindow(validity, window) <==> window == Window(validity)
  {
  }

  /** A validity written in fields, such as "30d" or "1d12h", has the sum of its fields as its window. */
  lemma WindowOfFields(validity: string, fields: seq<MixedRadix.Field>, window: int)
    requires MixedRadix.Known(fields, Duration.READABLE) && validity == Duration.Join(fields)
    requires MixedRadix.Total(fields, Duration.READABLE) > 0
    ensures IsWindow(validity, window) <==> window == MixedRadix.Total(fields, Duration.READABLE)
  {
    assert fields != [];
    Duration.JoinIsParsed(validity, fields);
  }

  /** The usual case: n of one unit. */
  lemma WindowOfOneField(n: nat, unit: nat, window: int)
    requires n > 0 && unit < |Duration.READABLE|
    ensures IsWindow(Decimal.Digits(n) + Duration.Suffix(unit), window) <==> window == n * Duration.READABLE[unit]
  {
    var fields := [MixedRadix.Field(n, unit)];
    assert fields[1..] == [];
    assert Duration.Join(fields) == Decimal.Digits(n) + Duration.Suffix(unit) + "";
    Duration.UnitsArePositive(unit);
    assert MixedRadix.Product(n, Duration.READABLE[unit]) > 0;
    WindowOfFields(Decimal.Digits(n) + Duration.Suffix(unit), fields, window);
  }

  // ---------------------------------------------------------------- the handler

  class HookLogin {
    const secret: string
    var devices: set<nat>
    var profiles: map<(nat, string), Profile>
    var transactions: seq<Transaction>

    constructor (secret: string)
      ensures this.secret == secret && devices == {} && profiles == map[] && transactions == []
    {
      this.secret := secret;
      devices, profiles, transactions := {}, map[], [];
    }

    method Login(now: int, request: Request) returns (response: Response)
      modifies this`transactions
      ensures var c := Call(now, request, devices, profiles, []);
              && response == Answer(secret, c, old(transactions))
              && transactions == TableAfter(secret, c, old(transactions))
    {
      if secret != "" {
        if request.secret != secret {
          return Unauthorized;
        }
      }
      var deviceId := ParseUint(request.deviceId);
      if deviceId.None? {
        return InvalidDeviceId;
      }
      var user := Duration.TrimSpace(request.user);
      if user == "" {
        return MissingUser;
      }
      if |user| > 128 {
        user := user[..128];
      }
      var mac := Truncate(Duration.TrimSpace(request.mac), 17);
      var ip := Truncate(Duration.TrimSpace(request.ip), 45);
      var profile := Truncate(Duration.TrimSpace(request.profile), 64);
      if deviceId.value !in devices {
        return DeviceNotFound;
      }
      if profile == "" {
        return NotRecorded(MissingProfile);
      }
      if (deviceId.value, profile) !in profiles {
        return NotRecorded(ProfileNotConfigured);
      }
      var cfg := profiles[(deviceId.value, profile)];
      var mode := ParseExpiredMode(cfg.expiryMode);
      if mode.None? || !RecordsTransaction(mode.value) {
        return NotRecorded(NonRecordingMode);
      }
      var parsed := Duration.ParseDuration(cfg.validity);
      var dur := DAY;
      if parsed.Success? && parsed.value != 0 {
        dur := parsed.value;
      }
      if ExistsSince(transactions, deviceId.value, user, LOGIN_COMMENT, now - dur) {
        return NotRecorded(AlreadyRecorded);
      }
      response := Recorded(|transactions|);
      transactions := transactions + [Transaction(deviceId.value, user, cfg.price, cfg.sellPrice, ip, mac,
                                                  cfg.validity, profile, LOGIN_COMMENT, now)];
    }
  }

  // ---------------------------------------------------------------- runs of calls

  /** The table after the calls and the insertions between them, starting from an empty one. */
  function Run(secret: string, calls: seq<Call>): seq<Transaction> {
    if calls == [] then []
    else
      var last := calls[|calls| - 1];
      TableAfter(secret, last, Run(secret, calls[..|calls| - 1]) + last.others)
  }

  /** The table that call `k` finds. */
  function TableAt(secret: string, calls: seq<Call>, k: nat): seq<Transaction>
    requires k < |calls|
  {
    Run(secret, calls[..k]) + calls[k].others
  }

  /** Call `k` passed every check before the deduplication. */
  predicate Eligible(secret: string, calls: seq<Call>, k: nat)
    requires k < |calls|
  {
    Check(secret, calls[k]).Success?
  }

  function AnswerAt(secret: string, calls: seq<Call>, k: nat): Response
    requires k < |calls|
  {
    Answer(secret, calls[k], TableAt(secret, calls, k))
  }

  predicate Sold(secret: string, calls: seq<Call>, k: nat)
    requires k < |calls|
  {
    AnswerAt(secret, calls, k).Recorded?
  }

  /** This is the window of the profile that call `k` names. */
  ghost predicate IsWindowAt(secret: string, calls: seq<Call>, k: nat, window: int)
    requires k < |calls| && Eligible(secret, calls, k)
  {
    IsWindow(Check(secret, calls[k]).value.validity, window)
  }

  predicate SameCustomer(calls: seq<Call>, j: nat, k: nat)
    requires j < |calls| && k < |calls|
  {
    && ParseUint(calls[j].request.deviceId) == ParseUint(calls[k].request.deviceId)
    && UserOf(calls[j].request) == UserOf(calls[k].request)
  }

  /** Call `j` sold to the customer of call `k`, less than a window before it. */
  predicate Covers(secret: string, calls: seq<Call>, j: nat, k: nat, window: int)
    requires j < k < |calls|
  {
    Sold(secret, calls, j) && SameCustomer(calls, j, k) && calls[k].now < calls[j].now + window
  }

  /** Row `t` is what call `j` sold. */
  predicate IsSaleOf(secret: string, calls: seq<Call>, t: Transaction, j: nat)
    requires j < |calls|
  {
    && Sold(secret, calls, j) && ParseUint(calls[j].request.deviceId).Some?
    && t == SaleOf(calls[j], Check(secret, calls[j]).value)
  }

  predicate SoldBefore(secret: string, calls: seq<Call>, t: Transaction, k: nat)
    requires k <= |calls|
  {
    exists j: nat :: j < k && IsSaleOf(secret, calls, t, j)
  }

  lemma RunStep(secret: string, calls: seq<Call>, k: nat)
    requires k < |calls|
    ensures Run(secret, calls[..k + 1]) == TableAfter(secret, calls[k], TableAt(secret, calls, k))
  {
    assert calls[..k + 1][..k] == calls[..k];
  }

  /** Every row with the login comment is the sale of an earlier call. */
  lemma {:induction false} RowsAreSales(secret: string, calls: seq<Call>, k: nat)
    requires k <= |calls|
    ensures forall t :: t in Run(secret, calls[..k]) && t.comment == LOGIN_COMMENT ==> SoldBefore(secret, calls, t, k)
  {
    if k > 0 {
      RunStep(secret, calls, k - 1);
      RowsAreSales(secret, calls, k - 1);
      forall t | t in Run(secret, calls[..k]) && t.comment == LOGIN_COMMENT
        ensures SoldBefore(secret, calls, t, k)
      {
        RowOrigin(secret, calls[k - 1], Run(secret, calls[..k - 1]), t);
        if t in Run(secret, calls[..k - 1]) {
          assert SoldBefore(secret, calls, t, k - 1);
          var j: nat :| j < k - 1 && IsSaleOf(secret, calls, t, j);
        } else {
          assert IsSaleOf(secret, calls, t, k - 1);
        }
      }
    }
  }

  /** A row with the login comment was there before the call, or is its sale. */
  lemma RowOrigin(secret: string, c: Call, before: seq<Transaction>, t: Transaction)
    requires t in TableAfter(secret, c, before + c.others) && t.comment == LOGIN_COMMENT
    ensures t in before
         || (&& Answer(secret, c, before + c.others).Recorded? && ParseUint(c.request.deviceId).Some?
             && t == SaleOf(c, Check(secret, c).value))
  {
    forall i | 0 <= i < |c.others| ensures c.others[i].comment != LOGIN_COMMENT {
    }
    if Answer(secret, c, before + c.others).Recorded? {
      CheckedHasDevice(secret, c);
    }
  }

  lemma RowsStay(secret: string, c: Call, before: seq<Transaction>, t: Transaction)
    requires t in before
    ensures t in TableAfter(secret, c, before + c.others)
  {
    assert t in before + c.others;
  }

  lemma SaleIsRow(secret: string, c: Call, table: seq<Transaction>, t: Transaction)
    requires Answer(secret, c, table).Recorded? && ParseUint(c.request.deviceId).Some?
    requires t == SaleOf(c, Check(secret, c).value)
    ensures t in TableAfter(secret, c, table)
  {
  }

  lemma {:induction false} RowsRemain(secret: string, calls: seq<Call>, j: nat, k: nat, t: Transaction)
    requires j <= k <= |calls| && t in Run(secret, calls[..j])
    ensures t in Run(secret, calls[..k])
    decreases k
  {
    if j < k {
      RowsRemain(secret, calls, j, k - 1, t);
      RunStep(secret, calls, k - 1);
      RowsStay(secret, calls[k - 1], Run(secret, calls[..k - 1]), t);
    }
  }

  lemma SalesAreRows(secret: string, calls: seq<Call>, k: nat, j: nat, t: Transaction)
    requires j < k <= |calls| && IsSaleOf(secret, calls, t, j)
    ensures t in Run(secret, calls[..k])
  {
    RunStep(secret, calls, j);
    SaleIsRow(secret, calls[j], TableAt(secret, calls, j), t);
    RowsRemain(secret, calls, j + 1, k, t);
  }

  lemma CoveredIsNotSold(secret: string, calls: seq<Call>, j: nat, k: nat, window: int)
    requires j < k < |calls| && Eligible(secret, calls, k)
    requires IsWindowAt(secret, calls, k, window) && Covers(secret, calls, j, k, window)
    ensures !Sold(secret, calls, k)
  {
    WindowIs(Check(secret, calls[k]).value.validity, window);
    CheckedHasDevice(secret, calls[j]);
    var t := SaleOf(calls[j], Check(secret, calls[j]).value);
    SalesAreRows(secret, calls, k, j, t);
    var table := TableAt(secret, calls, k);
    assert t in table;
    var i :| 0 <= i < |table| && table[i] == t;
    assert SameUser(table[i], ParseUint(calls[k].request.deviceId).value, UserOf(calls[k].request), LOGIN_COMMENT);
  }

  lemma LoginRowIsOld(before: seq<Transaction>, others: seq<OtherSale>, i: nat)
    requires i < |before + others| && (before + others)[i].comment == LOGIN_COMMENT
    ensures (before + others)[i] in before
  {
    assert forall x :: 0 <= x < |others| ==> others[x].comment != LOGIN_COMMENT;
  }

  lemma NotSoldIsCovered(secret: string, calls: seq<Call>, k: nat, window: int) returns (j: nat)
    requires k < |calls| && Eligible(secret, calls, k) && !Sold(secret, calls, k)
    requires IsWindowAt(secret, calls, k, window)
    ensures AnswerAt(secret, calls, k) == NotRecorded(AlreadyRecorded)
    ensures j < k && Covers(secret, calls, j, k, window)
  {
    WindowIs(Check(secret, calls[k]).value.validity, window);
    var before, table := Run(secret, calls[..k]), TableAt(secret, calls, k);
    CheckedHasDevice(secret, calls[k]);
    var device, user := ParseUint(calls[k].request.deviceId).value, UserOf(calls[k].request);
    var since := calls[k].now - window;
    var i :| 0 <= i < |table| && SameUser(table[i], device, user, LOGIN_COMMENT) && table[i].createdAt > since;
    LoginRowIsOld(before, calls[k].others, i);
    RowsAreSales(secret, calls, k);
    assert SoldBefore(secret, calls, table[i], k);
    j :| j < k && IsSaleOf(secret, calls, table[i], j);
  }

  /**
    An eligible call is answered "already recorded" exactly when an earlier call sold to the
    same customer within the window of its profile, and recorded otherwise.
   */
  lemma AnsweredByEarlierSales(secret: string, calls: seq<Call>, k: nat, window: int)
    requires k < |calls| && Eligible(secret, calls, k) && IsWindowAt(secret, calls, k, window)
    ensures Sold(secret, calls, k) <==> forall j: nat :: j < k ==> !Covers(secret, calls, j, k, window)
    ensures !Sold(secret, calls, k) ==> AnswerAt(secret, calls, k) == NotRecorded(AlreadyRecorded)
  {
    if !Sold(secret, calls, k) {
      var j := NotSoldIsCovered(secret, calls, k, window);
    } else {
      forall j: nat | j < k
        ensures !Covers(secret, calls, j, k, window)
      {
        if Covers(secret, calls, j, k, window) {
          CoveredIsNotSold(secret, calls, j, k, window);
        }
      }
    }
  }

  /** A recorded sale lies at least its own window after every earlier recorded sale to the same customer. */
  lemma SalesAreSpaced(secret: string, calls: seq<Call>, j: nat, k: nat, window: int)
    requires j < k < |calls| && SameCustomer(calls, j, k)
    requires Sold(secret, calls, j) && Sold(secret, calls, k)
    requires Eligible(secret, calls, k) && IsWindowAt(secret, calls, k, window)
    ensures calls[k].now >= calls[j].now + window
  {
    AnsweredByEarlierSales(secret, calls, k, window);
    assert !Covers(secret, calls, j, k, window);
  }

  predicate InOrder(calls: seq<Call>) {
    forall j, k :: 0 <= j < k < |calls| ==> calls[j].now <= calls[k].now
  }

  /**
    With non-decreasing times, an eligible login that is not recorded lies within its window
    after a recorded one, strictly before the window ends. So a login whose window is negative
    (a signed validity) is always recorded.
   */
  lemma UnrecordedIsCovered(secret: string, calls: seq<Call>, k: nat, window: int) returns (j: nat)
    requires InOrder(calls) && k < |calls| && Eligible(secret, calls, k) && !Sold(secret, calls, k)
    requires IsWindowAt(secret, calls, k, window)
    ensures j < k && Sold(secret, calls, j) && SameCustomer(calls, j, k)
    ensures calls[j].now <= calls[k].now < calls[j].now + window
    ensures window > 0
  {
    j := NotSoldIsCovered(secret, calls, k, window);
  }
}
