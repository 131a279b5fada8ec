/** Initial shares: the colon records the configurator writes and the users the
    priority manager makes of them (`SharesConfigurator.cc`, `PriorityManager.cc`). */
module Shares {
  import opened StdString
  import opened Users
  import opened Wrappers

  // ----- joining and splitting -----

  /** Fields separated by colons. */
  function Join(fields: seq<string>): string {
    if fields == [] then "" else if |fields| == 1 then fields[0] else fields[0] + ":" + Join(fields[1..])
  }

  /** Fields each followed by a colon, as the loop appends them. */
  function Trailing(fields: seq<string>): (t: string)
    ensures fields != [] ==> |t| > 0
  {
    if fields == [] then "" else Trailing(fields[..|fields| - 1]) + fields[|fields| - 1] + ":"
  }

  /** `boost::split` at every colon. */
  function Split(s: string): (tokens: seq<string>)
    ensures |tokens| > 0
    decreases |s|
  {
    match Find(s, ":")
    case None => [s]
    case Some(i) => [s[..i]] + Split(s[i + 1..])
  }

  lemma ColonAt(s: string, i: int)
    ensures OccursAt(s, ":", i) <==> 0 <= i < |s| && s[i] == ':'
  {
    if 0 <= i < |s| {
      assert s[i..i + 1] == [s[i]];
      assert ":" == [':'];
    }
  }

  lemma NoColonIff(s: string)
    ensures Find(s, ":").None? <==> ':' !in s
  {
    hide FindFrom;
    if Find(s, ":").Some? {
      ColonAt(s, Find(s, ":").value);
    }
    if i :| 0 <= i < |s| && s[i] == ':' {
      ColonAt(s, i);
    }
  }

  /** Splitting never loses text. */
  lemma {:induction false} JoinOfSplit(s: string)
    ensures Join(Split(s)) == s
    decreases |s|
  {
    match Find(s, ":")
    case None =>
    case Some(i) =>
      JoinOfSplit(s[i + 1..]);
      ColonAt(s, i);
      assert s == s[..i] + ":" + s[i + 1..];
  }

  lemma {:induction false} TokensHaveNoColon(s: string)
    ensures forall i :: 0 <= i < |Split(s)| ==> ':' !in Split(s)[i]
    decreases |s|
  {
    match Find(s, ":")
    case None =>
      NoColonIff(s);
    case Some(i) =>
      TokensHaveNoColon(s[i + 1..]);
      forall j | 0 <= j < i
        ensures s[j] != ':'
      {
        ColonAt(s, j);
      }
  }

  lemma {:induction false} SplitOfJoin(fields: seq<string>)
    requires fields != [] && forall i :: 0 <= i < |fields| ==> ':' !in fields[i]
    ensures Split(Join(fields)) == fields
  {
    hide FindFrom;
    if |fields| == 1 {
      NoColonIff(fields[0]);
      assert fields == [fields[0]];
    } else {
      SplitOfJoin(fields[1..]);
      SplitAtColon(fields[0], Join(fields[1..]));
      assert fields == [fields[0]] + fields[1..];
    }
  }

  lemma SplitAtColon(first: string, rest: string)
    requires ':' !in first
    ensures Split(first + ":" + rest) == [first] + Split(rest)
  {
    hide FindFrom;
    var s := first + ":" + rest;
    ColonAt(s, |first|);
    forall j | 0 <= j < |first|
      ensures !OccursAt(s, ":", j)
    {
      ColonAt(s, j);
      assert s[j] == first[j];
    }
    FoundAt(s, ":", |first|);
    assert s[..|first|] == first && s[|first| + 1..] == rest;
  }

  /** Round trip: a joined record splits into its fields exactly when no field
      contains a colon. */
  lemma SplitJoinIff(fields: seq<string>)
    requires fields != []
    ensures Split(Join(fields)) == fields <==> forall i :: 0 <= i < |fields| ==> ':' !in fields[i]
  {
    TokensHaveNoColon(Join(fields));
    if forall i :: 0 <= i < |fields| ==> ':' !in fields[i] {
      SplitOfJoin(fields);
    }
  }

  lemma {:induction false} JoinAppend(fields: seq<string>, last: string)
    requires fields != []
    ensures Join(fields + [last]) == Join(fields) + ":" + last
  {
    var all := fields + [last];
    assert all[1..] == fields[1..] + [last];
    if |fields| == 1 {
      assert all[1..] == [last];
    } else {
      JoinAppend(fields[1..], last);
      assert Join(all) == fields[0] + ":" + (Join(fields[1..]) + ":" + last);
      assert Join(fields) == fields[0] + ":" + Join(fields[1..]);
    }
  }

  /** Erasing the last colon leaves the joined record. */
  lemma {:induction false} TrailingIsJoin(fields: seq<string>)
    requires fields != []
    ensures Trailing(fields) == Join(fields) + ":"
  {
    var front, last := fields[..|fields| - 1], fields[|fields| - 1];
    assert fields == front + [last];
    if front != [] {
      TrailingIsJoin(front);
      JoinAppend(front, last);
    }
  }

  // ----- the configurator -----

  /** A section of the configuration file. */
  datatype Section = Section(name: string, props: map<string, string>)

  const PROPS: seq<string> := ["uid", "gid", "share", "ttl"]

  /** The lookup by path `name.prop`; a dot in the name addresses something else. */
  function Property(s: Section, prop: string): Option<string> {
    if '.' in s.name || prop !in s.props then None else Some(s.props[prop])
  }

  predicate Complete(s: Section) {
    forall i :: 0 <= i < 4 ==> Property(s, PROPS[i]).Some?
  }

  /** A section is complete exactly if it has the four properties and its name no
      dot, which the lookup would take for a path of its own. */
  lemma CompleteIff(s: Section)
    ensures Complete(s)
       <==> '.' !in s.name && "uid" in s.props && "gid" in s.props && "share" in s.props && "ttl" in s.props
  {
    assert PROPS[0] == "uid" && PROPS[1] == "gid" && PROPS[2] == "share" && PROPS[3] == "ttl";
  }

  /** Name, uid, gid, share and ttl. */
  function Fields(s: Section): (fields: seq<string>)
    requires Complete(s)
    ensures |fields| == 5
  {
    [s.name] + seq(4, i requires 0 <= i < 4 => Property(s, PROPS[i]).value)
  }

  /** The records of the sections up to the first incomplete one. */
  function Records(sections: seq<Section>): seq<string> {
    if sections == [] || !Complete(sections[0]) then [] else [Join(Fields(sections[0]))] + Records(sections[1..])
  }

  lemma {:induction false} RecordsStep(sections: seq<Section>, i: nat)
    requires i <= |sections| && forall j :: 0 <= j < i ==> Complete(sections[j])
    ensures |Records(sections[..i])| == i
    ensures i < |sections| && !Complete(sections[i]) ==> Records(sections) == Records(sections[..i])
    ensures i < |sections| && Complete(sections[i]) ==>
      Records(sections[..i + 1]) == Records(sections[..i]) + [Join(Fields(sections[i]))]
  {
    hide Complete, Fields, Join;
    if i > 0 {
      RecordsStep(sections[1..], i - 1);
      assert sections[..i][1..] == sections[1..][..i - 1];
      if i < |sections| {
        assert sections[..i + 1][1..] == sections[1..][..i];
      }
    }
  }

  class SharesConfigurator {
    var shares: seq<string>

    constructor ()
      ensures shares == []
    {
      shares := [];
    }

    /** One record per section; an incomplete section stops the loading, and the
        records before it stay. */
    method LoadShares(sections: seq<Section>) returns (ok: bool)
      modifies this
      ensures ok <==> forall i :: 0 <= i < |sections| ==> Complete(sections[i])
      ensures shares == old(shares) + Records(sections)
    {
      hide Complete, Records;
      assert sections[..0] == [];
      RecordsStep(sections, 0);
      for i := 0 to |sections|
        invariant forall j :: 0 <= j < i ==> Complete(sections[j])
        invariant shares == old(shares) + Records(sections[..i])
      {
        RecordsStep(sections, i);
        var value := LoadOne(sections[i]);
        if value.None? {
          return false;
        }
        shares := shares + [value.value];
      }
      assert sections[..|sections|] == sections;
      ok := true;
    }

    /** The loop over the properties of one user. */
    static method LoadOne(s: Section) returns (record: Option<string>)
      ensures record.Some? <==> Complete(s)
      ensures record.Some? ==> record.value == Join(Fields(s))
    {
      var value := s.name + ":";
      ghost var fields := [s.name];
      assert Trailing([s.name]) == value;
      for i := 0 to 4
        invariant |fields| == i + 1 && fields[0] == s.name
        invariant forall j :: 0 <= j < i ==> Property(s, PROPS[j]) == Some(fields[j + 1])
        invariant value == Trailing(fields)
      {
        var found := Property(s, PROPS[i]);
        if found.None? {
          return None;
        }
        assert (fields + [found.value])[..i + 1] == fields;
        value := value + found.value + ":";
        fields := fields + [found.value];
      }
      assert fields == Fields(s);
      TrailingIsJoin(fields);
      record := Some(value[..|value| - 1]);
    }
  }

  // ----- numbers -----

  predicate IsDigit(c: char) {
    '0' <= c <= '9'
  }

  function Digits(s: string): Option<nat> {
    if s == "" then Some(0) else
      var c := s[|s| - 1];
      match Digits(s[..|s| - 1])
      case None => None
      case Some(n) => if IsDigit(c) then Some(10 * n + (c as int - '0' as int)) else None
  }

  /** `lexical_cast` to a signed integer of the given size: an optional sign, at
      least one digit, no overflow. */
  function ParseInt(s: string, limit: nat): Option<int> {
    var unsigned := if s != "" && (s[0] == '-' || s[0] == '+') then s[1..] else s;
    if unsigned == "" then None else
      match Digits(unsigned)
      case None => None
      case Some(n) =>
        var m: int := n;
        var v := if s[0] == '-' then -m else m;
        if -(limit as int) <= v < limit then Some(v) else None
  }

  /** The decimal text of a number. */
  function Decimal(n: nat): (s: string)
    ensures s != "" && forall i :: 0 <= i < |s| ==> '0' <= s[i] <= '9'
  {
    var last := ['0' + (n % 10) as char];
    if n < 10 then last else Decimal(n / 10) + last
  }

  lemma {:induction false} DigitsOfDecimal(n: nat)
    ensures Digits(Decimal(n)) == Some(n)
  {
    var s := Decimal(n);
    if n >= 10 {
      DigitsOfDecimal(n / 10);
      assert s[..|s| - 1] == Decimal(n / 10);
    } else {
      assert s[..|s| - 1] == "";
    }
  }

  /** The decimal text of a number, with or without sign, is read back as that
      number, unless it does not fit. */
  lemma NumberReadsBack(n: nat, limit: nat)
    requires limit > 0
    ensures ParseInt(Decimal(n), limit) == ParseInt("+" + Decimal(n), limit) == if n < limit then Some(n) else None
    ensures var m: int := n;
            ParseInt("-" + Decimal(n), limit) == if m <= limit then Some(-m) else None
  {
    hide Digits, Decimal;
    DigitsOfDecimal(n);
    var s := Decimal(n);
    assert s[0] != '-' && s[0] != '+';
    assert ("-" + s)[1..] == s && ("+" + s)[1..] == s;
  }

  lemma {:induction false} DigitsOnly(s: string)
    requires Digits(s).Some?
    ensures ':' !in s
  {
    if s != "" {
      DigitsOnly(s[..|s| - 1]);
      assert s == s[..|s| - 1] + [s[|s| - 1]];
    }
  }

  /** What is read as a number holds no colon. */
  lemma NumberHasNoColon(s: string, limit: nat)
    requires ParseInt(s, limit).Some?
    ensures ':' !in s
  {
    if s != "" && (s[0] == '-' || s[0] == '+') {
      DigitsOnly(s[1..]);
      assert s == [s[0]] + s[1..];
    } else {
      DigitsOnly(s);
    }
  }

  const INT16: nat := 0x8000
  const INT64: nat := 0x8000_0000_0000_0000

  // ----- users -----

  /** Initial shares either give users, or a cast throws, or all shares are zero
      and the division leaves the real numbers. */
  datatype Outcome<T> = Made(value: T) | Throws | ZeroSum

  /** The share field of a record, as the first loop reads it. */
  function ShareOf(record: string): Option<int> {
    var tokens := Split(record);
    if |tokens| < 4 then None else ParseInt(tokens[3], INT16)
  }

  function SumShares(records: seq<string>): Option<int> {
    if records == [] then Some(0) else
      match (SumShares(records[..|records| - 1]), ShareOf(records[|records| - 1]))
      case (Some(a), Some(b)) => Some(a + b)
      case _ => None
  }

  /** One record made into an account; ids are stored as unsigned short. */
  function MakeUser(record: string, sum: int): Outcome<Account> {
    var tokens := Split(record);
    if |tokens| != 5 then Throws else
      match (ParseInt(tokens[1], INT16), ParseInt(tokens[2], INT16), ParseInt(tokens[3], INT16), ParseInt(tokens[4], INT64))
      case (Some(uid), Some(gid), Some(share), Some(ttl)) =>
        if sum == 0 then ZeroSum
        else Made(Account(uid % 65536, gid % 65536, share as real / sum as real, ttl, map[], map[]))
      case _ => Throws
  }

  function MakeUsers(records: seq<string>, sum: int): Outcome<seq<Account>> {
    if records == [] then Made([]) else
      match MakeUsers(records[..|records| - 1], sum)
      case Throws => Throws
      case ZeroSum => ZeroSum
      case Made(accounts) =>
        match MakeUser(records[|records| - 1], sum)
        case Throws => Throws
        case ZeroSum => ZeroSum
        case Made(a) => Made(accounts + [a])
  }

  function InitialAccounts(records: seq<string>): Outcome<seq<Account>> {
    match SumShares(records)
    case None => Throws
    case Some(sum) => MakeUsers(records, sum)
  }

  /** Sum the shares, then make one user per record. */
  method CalculateInitialShares(shares: seq<string>) returns (r: Outcome<seq<Account>>, userList: seq<User>)
    ensures r == InitialAccounts(shares)
    ensures r.Made? ==> Views(userList) == r.value && fresh(userList)
    ensures forall i, j :: 0 <= i < j < |userList| ==> userList[i] != userList[j]
  {
    hide ShareOf, MakeUser;
    userList := [];
    var sum := 0;
    assert shares[..0] == [];
    for i := 0 to |shares|
      invariant SumShares(shares[..i]) == Some(sum)
    {
      assert shares[..i + 1][..i] == shares[..i];
      var n := ShareOf(shares[i]);
      if n.None? {
        ThrowingSum(shares, i);
        return Throws, [];
      }
      sum := sum + n.value;
    }
    assert shares[..|shares|] == shares;
    ghost var accounts: seq<Account> := [];
    for i := 0 to |shares|
      invariant MakeUsers(shares[..i], sum) == Made(accounts)
      invariant |userList| == |accounts| && fresh(userList)
      invariant forall j :: 0 <= j < |userList| ==> userList[j].View() == accounts[j]
      invariant forall j, k :: 0 <= j < k < |userList| ==> userList[j] != userList[k]
    {
      assert shares[..i + 1][..i] == shares[..i];
      var made := MakeUser(shares[i], sum);
      match made {
        case Made(a) =>
          MadeIsFresh(shares[i], sum);
          var us := new User(a.uid, a.gid, a.share, a.ttl);
          userList := userList + [us];
          accounts := accounts + [a];
        case Throws =>
          FailingUser(shares, sum, i);
          return Throws, userList;
        case ZeroSum =>
          FailingUser(shares, sum, i);
          return ZeroSum, userList;
      }
    }
    assert Views(userList) == accounts;
    r := Made(Views(userList));
  }

  lemma MadeIsFresh(record: string, sum: int)
    requires MakeUser(record, sum).Made?
    ensures MakeUser(record, sum).value.cpu == map[] && MakeUser(record, sum).value.memory == map[]
  {
  }

  lemma {:induction false} ThrowingSum(records: seq<string>, i: nat)
    requires i < |records| && ShareOf(records[i]).None?
    ensures SumShares(records).None?
  {
    hide ShareOf;
    if i < |records| - 1 {
      ThrowingSum(records[..|records| - 1], i);
    }
  }

  lemma {:induction false} FailingUser(records: seq<string>, sum: int, i: nat)
    requires i < |records| && MakeUsers(records[..i], sum).Made? && !MakeUser(records[i], sum).Made?
    ensures !MakeUsers(records, sum).Made?
    ensures MakeUsers(records, sum).Throws? <==> MakeUser(records[i], sum).Throws?
  {
    hide MakeUser;
    var front := records[..|records| - 1];
    if i < |records| - 1 {
      assert front[..i] == records[..i];
      FailingUser(front, sum, i);
    }
  }

  // ----- what the shares amount to -----

  function TotalShare(accounts: seq<Account>): real {
    if accounts == [] then 0.0 else TotalShare(accounts[..|accounts| - 1]) + accounts[|accounts| - 1].share
  }

  /** A share scaled back by the sum. */
  function Scaled(share: real, sum: int): real {
    share * sum as real
  }

  lemma ScaledZero(sum: int)
    ensures Scaled(0.0, sum) == 0.0
  {
  }

  lemma ScaledAdds(x: real, y: real, sum: int)
    ensures Scaled(x + y, sum) == Scaled(x, sum) + Scaled(y, sum)
  {
  }

  /** Each share is the configured number over the sum. */
  lemma {:induction false} MadeShares(records: seq<string>, sum: int)
    requires MakeUsers(records, sum).Made? && sum != 0
    ensures SumShares(records).Some?
    ensures var accounts := MakeUsers(records, sum).value;
            && |accounts| == |records|
            && (forall i :: 0 <= i < |records| ==>
                  ShareOf(records[i]).Some? && Scaled(accounts[i].share, sum) == ShareOf(records[i]).value as real)
            && Scaled(TotalShare(accounts), sum) == SumShares(records).value as real
  {
    hide ShareOf, MakeUser, Scaled;
    ScaledZero(sum);
    if records != [] {
      var front, last := records[..|records| - 1], records[|records| - 1];
      MadeShares(front, sum);
      var accounts, a := MakeUsers(front, sum).value, MakeUser(last, sum).value;
      OneShare(last, sum);
      assert (accounts + [a])[..|accounts|] == accounts;
      ScaledAdds(TotalShare(accounts), a.share, sum);
    }
  }

  lemma OneShare(record: string, sum: int)
    requires MakeUser(record, sum).Made?
    ensures ShareOf(record).Some? && sum != 0
    ensures Scaled(MakeUser(record, sum).value.share, sum) == ShareOf(record).value as real
  {
    hide Split, ParseInt;
  }

  /** For nonnegative configured shares, not all zero: the normalised shares lie in
      [0, 1], add up to one and keep the configured proportions. */
  lemma SharesNormalised(records: seq<string>)
    requires InitialAccounts(records).Made? && records != []
    requires forall i :: 0 <= i < |records| && ShareOf(records[i]).Some? ==> ShareOf(records[i]).value >= 0
    ensures var accounts := InitialAccounts(records).value;
            && |accounts| == |records|
            && TotalShare(accounts) == 1.0
            && (forall i :: 0 <= i < |accounts| ==> ShareOf(records[i]).Some? && 0.0 <= accounts[i].share <= 1.0)
            && (forall i, j :: 0 <= i < |accounts| && 0 <= j < |accounts| ==>
                  accounts[i].share * ShareOf(records[j]).value as real == accounts[j].share * ShareOf(records[i]).value as real)
  {
    hide ShareOf, MakeUser, Scaled, TotalShare, SumShares, MakeUsers;
    var sum := SumShares(records).value;
    SumIsNonZero(records, sum);
    MadeShares(records, sum);
    var accounts := MakeUsers(records, sum).value;
    TotalIsOne(TotalShare(accounts), sum);
    forall i | 0 <= i < |accounts|
      ensures 0.0 <= accounts[i].share <= 1.0
    {
      PartOfSum(records, i);
      ShareBounds(accounts[i].share, ShareOf(records[i]).value, sum);
    }
    forall i, j | 0 <= i < |accounts| && 0 <= j < |accounts|
      ensures accounts[i].share * ShareOf(records[j]).value as real == accounts[j].share * ShareOf(records[i]).value as real
    {
      Proportional(accounts[i].share, ShareOf(records[i]).value, accounts[j].share, ShareOf(records[j]).value, sum);
    }
  }

  lemma SumIsNonZero(records: seq<string>, sum: int)
    requires records != [] && MakeUsers(records, sum).Made?
    ensures sum != 0
  {
    hide Split, ParseInt;
  }

  lemma {:induction false} PartOfSum(records: seq<string>, i: nat)
    requires i < |records| && SumShares(records).Some?
    requires forall j :: 0 <= j < |records| && ShareOf(records[j]).Some? ==> ShareOf(records[j]).value >= 0
    ensures ShareOf(records[i]).Some? && 0 <= ShareOf(records[i]).value <= SumShares(records).value
  {
    hide ShareOf;
    var front := records[..|records| - 1];
    if i < |front| {
      PartOfSum(front, i);
    } else {
      SumNonNegative(front);
    }
  }

  lemma {:induction false} SumNonNegative(records: seq<string>)
    requires SumShares(records).Some?
    requires forall j :: 0 <= j < |records| && ShareOf(records[j]).Some? ==> ShareOf(records[j]).value >= 0
    ensures SumShares(records).value >= 0
  {
    hide ShareOf;
    if records != [] {
      SumNonNegative(records[..|records| - 1]);
    }
  }

  lemma TotalIsOne(t: real, sum: int)
    requires sum != 0 && Scaled(t, sum) == sum as real
    ensures t == 1.0
  {
    var s := sum as real;
    assert t == (t * s) / s;
  }

  lemma ShareBounds(x: real, n: int, sum: int)
    requires Scaled(x, sum) == n as real && 0 <= n <= sum && sum != 0
    ensures 0.0 <= x <= 1.0
  {
    var s := sum as real;
    assert x < 0.0 ==> x * s < 0.0;
    assert x > 1.0 ==> x * s > s;
  }

  lemma Proportional(x: real, m: int, y: real, n: int, sum: int)
    requires Scaled(x, sum) == m as real && Scaled(y, sum) == n as real
    ensures x * n as real == y * m as real
  {
    assert x * (y * sum as real) == y * (x * sum as real);
  }

  // ----- from the configuration to the users -----

  /** A section with all four numbers, in a name without dot or colon. */
  ghost predicate Configured(s: Section) {
    && '.' !in s.name && ':' !in s.name
    && "uid" in s.props && "gid" in s.props && "share" in s.props && "ttl" in s.props
    && ParseInt(s.props["uid"], 0x8000).Some? && ParseInt(s.props["gid"], 0x8000).Some?
    && ParseInt(s.props["share"], 0x8000).Some? && ParseInt(s.props["ttl"], 0x8000_0000_0000_0000).Some?
  }

  ghost function ConfiguredShare(s: Section): int
    requires Configured(s)
  {
    ParseInt(s.props["share"], 0x8000).value
  }

  ghost function SumConfigured(sections: seq<Section>): int
    requires forall i :: 0 <= i < |sections| ==> Configured(sections[i])
  {
    if sections == [] then 0 else
      SumConfigured(sections[..|sections| - 1]) + ConfiguredShare(sections[|sections| - 1])
  }

  /** The account has the section's own numbers, ids as unsigned short. */
  ghost predicate HasNumbers(a: Account, s: Section, sum: int)
    requires Configured(s)
  {
    && a.uid == ParseInt(s.props["uid"], 0x8000).value % 0x1_0000
    && a.gid == ParseInt(s.props["gid"], 0x8000).value % 0x1_0000
    && a.ttl == ParseInt(s.props["ttl"], 0x8000_0000_0000_0000).value
    && a.share * sum as real == ConfiguredShare(s) as real
    && a.cpu == map[] && a.memory == map[]
  }

  lemma FieldsOf(s: Section)
    requires Configured(s)
    ensures Complete(s) && Fields(s) == [s.name, s.props["uid"], s.props["gid"], s.props["share"], s.props["ttl"]]
  {
    hide ParseInt;
    PresentFields(s);
  }

  lemma RecordOf(s: Section)
    requires Configured(s)
    ensures Complete(s)
    ensures Split(Join(Fields(s))) == [s.name, s.props["uid"], s.props["gid"], s.props["share"], s.props["ttl"]]
  {
    hide ParseInt, Split, Join, Fields, Complete;
    FieldsOf(s);
    NumberHasNoColon(s.props["uid"], 0x8000);
    NumberHasNoColon(s.props["gid"], 0x8000);
    NumberHasNoColon(s.props["share"], 0x8000);
    NumberHasNoColon(s.props["ttl"], 0x8000_0000_0000_0000);
    SplitOfJoin(Fields(s));
  }

  /** One section, numbers or not: with no colon in name or values it is read back
      value by value, and the user throws exactly if one of them is no number that fits. */
  lemma SectionReadsBack(s: Section, sum: int)
    requires '.' !in s.name && ':' !in s.name && sum != 0
    requires "uid" in s.props && "gid" in s.props && "share" in s.props && "ttl" in s.props
    requires ':' !in s.props["uid"] && ':' !in s.props["gid"] && ':' !in s.props["share"] && ':' !in s.props["ttl"]
    ensures |Records([s])| == 1
    ensures MakeUser(Records([s])[0], sum)
         == match (ParseInt(s.props["uid"], 0x8000), ParseInt(s.props["gid"], 0x8000),
                   ParseInt(s.props["share"], 0x8000), ParseInt(s.props["ttl"], 0x8000_0000_0000_0000))
            case (Some(uid), Some(gid), Some(share), Some(ttl)) =>
              Made(Account(uid % 0x1_0000, gid % 0x1_0000, share as real / sum as real, ttl, map[], map[]))
            case _ => Throws
  {
    hide Split, ParseInt, Join, Fields, Complete;
    PresentFields(s);
    SplitOfJoin(Fields(s));
    assert [s][1..] == [];
  }

  lemma PresentFields(s: Section)
    requires '.' !in s.name && "uid" in s.props && "gid" in s.props && "share" in s.props && "ttl" in s.props
    ensures Complete(s) && Fields(s) == [s.name, s.props["uid"], s.props["gid"], s.props["share"], s.props["ttl"]]
  {
  }

  lemma UserOf(s: Section, sum: int)
    requires Configured(s)
    ensures Complete(s) && ShareOf(Join(Fields(s))) == Some(ConfiguredShare(s))
    ensures sum != 0 ==> MakeUser(Join(Fields(s)), sum).Made? && HasNumbers(MakeUser(Join(Fields(s)), sum).value, s, sum)
  {
    hide ParseInt, Split, Join, Fields, Complete;
    RecordOf(s);
  }

  lemma {:induction false} RecordsOfAll(sections: seq<Section>)
    requires forall i :: 0 <= i < |sections| ==> Complete(sections[i])
    ensures |Records(sections)| == |sections|
    ensures forall i :: 0 <= i < |sections| ==> Records(sections)[i] == Join(Fields(sections[i]))
  {
    hide Join, Fields, Complete;
    if sections != [] {
      RecordsOfAll(sections[1..]);
    }
  }

  ghost predicate RecordsOf(records: seq<string>, sections: seq<Section>) {
    && |records| == |sections|
    && forall i :: 0 <= i < |sections| ==>
         Configured(sections[i]) && Complete(sections[i]) && records[i] == Join(Fields(sections[i]))
  }

  lemma {:induction false} SumOfRecords(records: seq<string>, sections: seq<Section>)
    requires RecordsOf(records, sections)
    ensures SumShares(records) == Some(SumConfigured(sections))
  {
    hide ShareOf, Join, Fields, Complete, Configured, ConfiguredShare;
    if sections != [] {
      var k := |sections| - 1;
      SumOfRecords(records[..k], sections[..k]);
      UserOf(sections[k], 0);
    }
  }

  lemma {:induction false} UsersOfRecords(records: seq<string>, sections: seq<Section>, sum: int)
    requires RecordsOf(records, sections) && sum != 0
    ensures MakeUsers(records, sum).Made? && |MakeUsers(records, sum).value| == |sections|
    ensures forall i :: 0 <= i < |sections| ==> HasNumbers(MakeUsers(records, sum).value[i], sections[i], sum)
  {
    hide MakeUser, ShareOf, Join, Fields, Complete, Configured, ConfiguredShare, HasNumbers;
    if sections != [] {
      var k := |sections| - 1;
      UsersOfRecords(records[..k], sections[..k], sum);
      UserOf(sections[k], sum);
    }
  }

  /** From the configuration to the users: if every section is complete and its
      numbers fit, every section becomes one user with its own ids and time to
      live, and with its own part of the sum of all shares. */
  lemma ConfigurationReadsBack(sections: seq<Section>)
    requires forall i :: 0 <= i < |sections| ==> Configured(sections[i])
    requires SumConfigured(sections) != 0
    ensures forall i :: 0 <= i < |sections| ==> Complete(sections[i])
    ensures var users := InitialAccounts(Records(sections));
            && users.Made? && |users.value| == |sections|
            && forall i :: 0 <= i < |sections| ==> HasNumbers(users.value[i], sections[i], SumConfigured(sections))
  {
    hide Records, Join, Fields, Complete, Configured, HasNumbers, SumConfigured, MakeUsers, SumShares;
    forall i | 0 <= i < |sections|
      ensures Complete(sections[i])
    {
      FieldsOf(sections[i]);
    }
    RecordsOfAll(sections);
    SumOfRecords(Records(sections), sections);
    UsersOfRecords(Records(sections), sections, SumConfigured(sections));
  }
}
