/** Per-channel provider and model overrides of `src/config.rs`: a nested store and its flattened index. */
module Config {
  import opened Wrappers
  import opened Text

  // ----- YAML values -----

  /** A mapping key: a string, or some other YAML value that no lookup here asks for. */
  datatype Key = Name(name: string) | OtherKey(id: int)

  datatype Value =
    | Scalar(id: int)  // null, a boolean or a number
    | Str(s: string)
    | List(items: seq<Value>)
    | Mapping(m: map<Key, Value>)

  type Channels = map<string, Value>

  function Get(v: Value, key: string): Option<Value> {
    if v.Mapping? && Name(key) in v.m then Some(v.m[Name(key)]) else None
  }

  function AsStr(v: Option<Value>): Option<string> {
    if v.Some? && v.value.Str? then Some(v.value.s) else None
  }

  function NonBlank(s: Option<string>): Option<string> {
    if s.Some? && Trim(s.value) != "" then Some(Trim(s.value)) else None
  }

  /** The mapping a value is, or becomes when an override is written into it. */
  function AsMapping(v: Option<Value>): map<Key, Value> {
    if v.Some? && v.value.Mapping? then v.value.m else map[]
  }

  function Entry<T(==), U>(m: map<T, U>, k: T): Option<U> {
    if k in m then Some(m[k]) else None
  }

  // ----- reading an override off one value -----

  function NormalProvider(provider: string): Option<string> {
    if Trim(provider) == "" then None else Some(Lower(Trim(provider)))
  }

  function NormalModel(model: string): Option<string> {
    if Trim(model) == "" || Trim(model) == "*" then None else Some(Trim(model))
  }

  function ProviderOf(v: Value): Option<string> {
    var preset := AsStr(Get(v, "provider_preset"));
    var raw := if preset.Some? then preset else AsStr(Get(v, "llm_provider"));
    if raw.Some? then NormalProvider(raw.value) else None
  }

  function ModelOf(v: Value): Option<string> {
    var raw := AsStr(Get(v, "model"));
    if raw.Some? then NormalModel(raw.value) else None
  }

  // ----- the default account of a channel -----

  function AccountNames(cfg: Value): set<string> {
    set k | k in AsMapping(Get(cfg, "accounts")) && k.Name? :: k.name
  }

  ghost predicate IsLeast(x: string, names: set<string>) {
    x in names && forall y :: y in names ==> LexLeq(x, y)
  }

  lemma {:induction false} LeastExists(names: set<string>) returns (x: string)
    requires names != {}
    ensures IsLeast(x, names)
    decreases |names|
  {
    var first :| first in names;
    LexTotal(first, first);
    var rest := names - {first};
    assert names == rest + {first};
    if rest == {} { return first; }
    var y := LeastExists(rest);
    LexTotal(first, y);
    x := if LexLeq(y, first) then y else first;
    forall z | z in names
      ensures LexLeq(x, z)
    {
      if z in rest && x == first { LexTransitive(first, y, z); }
    }
  }

  lemma LeastIsUnique(names: set<string>)
    requires names != {}
    ensures exists x :: IsLeast(x, names)
    ensures forall x, y :: IsLeast(x, names) && IsLeast(y, names) ==> x == y
  {
    var w := LeastExists(names);
    forall x, y | IsLeast(x, names) && IsLeast(y, names)
      ensures x == y
    {
      LexTotal(x, y);
    }
  }

  /** The first of the sorted names. */
  ghost function Least(names: set<string>): (x: string)
    requires names != {}
    ensures IsLeast(x, names)
  {
    LeastIsUnique(names);
    var x :| IsLeast(x, names);
    x
  }

  function ExplicitDefault(cfg: Value): Option<string> {
    NonBlank(AsStr(Get(cfg, "default_account")))
  }

  ghost function DefaultAccount(cfg: Value): Option<string> {
    if ExplicitDefault(cfg).Some? then ExplicitDefault(cfg)
    else if "default" in AccountNames(cfg) then Some("default")
    else if AccountNames(cfg) == {} then None
    else Some(Least(AccountNames(cfg)))
  }

  method ChannelDefaultAccountId(channels: Channels, channel: string) returns (id: Option<string>)
    ensures id == if channel in channels then DefaultAccount(channels[channel]) else None
  {
    if channel !in channels { return None; }
    var cfg := channels[channel];
    var names := AccountNames(cfg);
    var explicit := ExplicitDefault(cfg);
    if explicit.Some? { return explicit; }
    if "default" in names { return Some("default"); }
    if names == {} { return None; }
    var first := FirstSorted(names);
    return Some(first);
  }

  method FirstSorted(names: set<string>) returns (first: string)
    requires names != {}
    ensures first == Least(names)
  {
    first :| first in names;
    LexTotal(first, first);
    var todo := names - {first};
    while todo != {}
      invariant todo < names && IsLeast(first, names - todo)
      decreases |todo|
    {
      var n :| n in todo;
      LexTotal(n, first);
      LexTotal(n, n);
      if !LexLeq(first, n) {
        forall y | y in names - todo
          ensures LexLeq(n, y)
        {
          LexTransitive(n, first, y);
        }
        first := n;
      }
      todo := todo - {n};
    }
    assert names - todo == names;
    LeastIsUnique(names);
  }

  // ----- resolving -----

  /** `split_once('.')`. */
  function SplitDot(s: string): (r: Option<(string, string)>)
    ensures r.Some? ==> s == r.value.0 + "." + r.value.1 && '.' !in r.value.0
    ensures r.None? <==> '.' !in s
  {
    if s == "" then None
    else if s[0] == '.' then
      assert s == "" + "." + s[1..];
      Some(("", s[1..]))
    else
      var rest := SplitDot(s[1..]);
      assert s == [s[0]] + s[1..];
      if rest.None? then None
      else
        assert s == ([s[0]] + rest.value.0) + "." + rest.value.1;
        Some(([s[0]] + rest.value.0, rest.value.1))
  }

  type Reader = Value -> Option<string>

  function AccountValue(channels: Channels, channel: string, account: string): Option<Value> {
    if channel in channels then Entry(AsMapping(Get(channels[channel], "accounts")), Name(account)) else None
  }

  function AccountOverride(channels: Channels, channel: string, account: string, read: Reader): Option<string> {
    var v := AccountValue(channels, channel, account);
    if v.Some? then read(v.value) else None
  }

  function ChannelOverride(channels: Channels, channel: string, read: Reader): Option<string> {
    if channel in channels then read(channels[channel]) else None
  }

  ghost function DefaultOf(channels: Channels, channel: string): Option<string> {
    if channel in channels then DefaultAccount(channels[channel]) else None
  }

  function OrElse(a: Option<string>, b: Option<string>): Option<string> {
    if a.Some? then a else b
  }

  /** The override of a channel name: that of the named or default account, else that of the channel. */
  ghost function Resolve(channels: Channels, channel: string, read: Reader): Option<string> {
    var parts := SplitDot(channel);
    if parts.Some? then
      OrElse(AccountOverride(channels, parts.value.0, parts.value.1, read),
             ChannelOverride(channels, parts.value.0, read))
    else
      var account := DefaultOf(channels, channel);
      OrElse(if account.Some? then AccountOverride(channels, channel, account.value, read) else None,
             ChannelOverride(channels, channel, read))
  }

  // ----- what is read, on the entries themselves -----

  /** What a provider name is taken for: nothing when blank, else its trimmed text in lower case. */
  predicate ReadsAsProvider(s: string, r: Option<string>) {
    r == if AllWhitespace(s) then None else Some(Lower(Trim(s)))
  }

  /** What a model name is taken for: nothing when blank or a star, else its trimmed text. */
  predicate ReadsAsModel(s: string, r: Option<string>) {
    r == if AllWhitespace(s) || Trim(s) == "*" then None else Some(Trim(s))
  }

  predicate HoldsText(m: map<Key, Value>, key: string) {
    Name(key) in m && m[Name(key)].Str?
  }

  /** A preset that is a text decides, even a blank one; else the provider does. */
  lemma {:induction false} ProviderMeans(m: map<Key, Value>)
    ensures HoldsText(m, "provider_preset") ==> ReadsAsProvider(m[Name("provider_preset")].s, ProviderOf(Mapping(m)))
    ensures !HoldsText(m, "provider_preset") && HoldsText(m, "llm_provider") ==>
              ReadsAsProvider(m[Name("llm_provider")].s, ProviderOf(Mapping(m)))
    ensures !HoldsText(m, "provider_preset") && !HoldsText(m, "llm_provider") ==> ProviderOf(Mapping(m)) == None
  {
    if HoldsText(m, "provider_preset") { TrimIsBlank(m[Name("provider_preset")].s); }
    if HoldsText(m, "llm_provider") { TrimIsBlank(m[Name("llm_provider")].s); }
  }

  lemma {:induction false} ModelMeans(m: map<Key, Value>)
    ensures HoldsText(m, "model") ==> ReadsAsModel(m[Name("model")].s, ModelOf(Mapping(m)))
    ensures !HoldsText(m, "model") ==> ModelOf(Mapping(m)) == None
  {
    if HoldsText(m, "model") { TrimIsBlank(m[Name("model")].s); }
  }

  /** The channel has this account, with this value. */
  predicate AccountAt(channels: Channels, channel: string, account: string, v: Value) {
    && channel in channels && channels[channel].Mapping?
    && var m := channels[channel].m;
       && Name("accounts") in m && m[Name("accounts")].Mapping?
       && Name(account) in m[Name("accounts")].m && m[Name("accounts")].m[Name(account)] == v
  }

  ghost predicate HasAccount(channels: Channels, channel: string, account: string) {
    exists v :: AccountAt(channels, channel, account, v)
  }

  lemma {:induction false} AccountsMean(channels: Channels, channel: string, a: string)
    requires channel in channels
    ensures a in AccountNames(channels[channel]) <==> HasAccount(channels, channel, a)
  {
    AccountNamesOf(channels[channel], a);
    var accounts := AsMapping(Get(channels[channel], "accounts"));
    if Name(a) in accounts { assert AccountAt(channels, channel, a, accounts[Name(a)]); }
  }

  /** A default account that is written down and not blank decides, then the account "default", then the first in
      the order of the names. */
  lemma {:induction false} DefaultMeans(channels: Channels, channel: string, m: map<Key, Value>)
    requires channel in channels && channels[channel] == Mapping(m)
    ensures var r := DefaultOf(channels, channel);
            if HoldsText(m, "default_account") && !AllWhitespace(m[Name("default_account")].s) then
              r == Some(Trim(m[Name("default_account")].s))
            else if HasAccount(channels, channel, "default") then r == Some("default")
            else if r.Some? then
              HasAccount(channels, channel, r.value) && forall a :: HasAccount(channels, channel, a) ==>
                  LexLeq(r.value, a)
            else forall a :: !HasAccount(channels, channel, a)
  {
    if HoldsText(m, "default_account") { TrimIsBlank(m[Name("default_account")].s); }
    forall a
      ensures a in AccountNames(channels[channel]) <==> HasAccount(channels, channel, a)
    {
      AccountsMean(channels, channel, a);
    }
  }

  /** A name resolves to what its account, the default one where it names none, reads as, and else to what the
      channel reads as. */
  lemma {:induction false} ResolveMeans(channels: Channels, base: string, account: Option<string>, read: Reader)
    requires '.' !in base
    ensures var name := if account.Some? then base + "." + account.value else base;
            var own := if base in channels then read(channels[base]) else None;
            var first := if account.Some? then account else DefaultOf(channels, base);
            && (forall v :: first.Some? && AccountAt(channels, base, first.value, v) ==>
                  Resolve(channels, name, read) == if read(v).Some? then read(v) else own)
            && (first.None? || (forall v :: !AccountAt(channels, base, first.value, v)) ==>
                  Resolve(channels, name, read) == own)
  {
    if account.Some? { SplitJoined(base, account.value); }
    var first := if account.Some? then account else DefaultOf(channels, base);
    if first.Some? && AccountValue(channels, base, first.value).Some? {
      assert AccountAt(channels, base, first.value, AccountValue(channels, base, first.value).value);
    }
  }

  // ----- writing -----

  /** The channel and account an override for `channel` is written to. */
  ghost function Target(channels: Channels, channel: string): Option<(string, Option<string>)> {
    var name := Trim(channel);
    if name == "" then None
    else
      var parts := SplitDot(name);
      if parts.None? then Some((name, DefaultOf(channels, name)))
      else
        var b, a := Trim(parts.value.0), Trim(parts.value.1);
        if b == "" || a == "" then None else Some((b, Some(a)))
  }

  type Edit = map<Key, Value> -> map<Key, Value>

  /** The mapping at a target, created on the way where it is missing or something else. */
  function TargetMapping(channels: Channels, channel: string, account: Option<string>): map<Key, Value> {
    var cm := AsMapping(Entry(channels, channel));
    if account.None? then cm
    else AsMapping(Entry(AsMapping(Entry(cm, Name("accounts"))), Name(account.value)))
  }

  function WithAccounts(m: map<Key, Value>, accounts: Value): map<Key, Value> {
    m[Name("accounts") := accounts]
  }

  function StoreAt(channels: Channels, channel: string, account: Option<string>, m: map<Key, Value>): Channels {
    var cm := AsMapping(Entry(channels, channel));
    if account.None? then channels[channel := Mapping(m)]
    else
      var accounts := AsMapping(Entry(cm, Name("accounts")));
      channels[channel := Mapping(WithAccounts(cm, Mapping(accounts[Name(account.value) := Mapping(m)])))]
  }

  ghost function Written(channels: Channels, channel: string, edit: Edit): Channels {
    var t := Target(channels, channel);
    if t.None? then channels
    else StoreAt(channels, t.value.0, t.value.1, edit(TargetMapping(channels, t.value.0, t.value.1)))
  }

  function SetProvider(provider: Option<string>): Edit {
    (m: map<Key, Value>) =>
      var cleared := m - {Name("provider_preset"), Name("llm_provider")};
      if provider.Some? && NormalProvider(provider.value).Some? then
        cleared[Name("provider_preset") := Str(NormalProvider(provider.value).value)]
      else cleared
  }

  function SetModel(model: Option<string>): Edit {
    (m: map<Key, Value>) =>
      var cleared := m - {Name("model")};
      if model.Some? && NormalModel(model.value).Some? then
        cleared[Name("model") := Str(NormalModel(model.value).value)]
      else cleared
  }

  class Config {
    var channels: Channels

    method LlmOverrideTarget(channel: string) returns (t: Option<(string, Option<string>)>)
      ensures t == Target(channels, channel)
    {
      var name := Trim(channel);
      if name == "" { return None; }
      var parts := SplitDot(name);
      if parts.Some? {
        var b, a := Trim(parts.value.0), Trim(parts.value.1);
        if b == "" || a == "" { return None; }
        return Some((b, Some(a)));
      }
      var account := ChannelDefaultAccountId(channels, name);
      return Some((name, account));
    }

    method SetProviderOverrideForChannel(channel: string, provider: Option<string>)
      modifies this
      ensures channels == Written(old(channels), channel, SetProvider(provider))
    {
      var t := LlmOverrideTarget(channel);
      if t.None? { return; }
      var (base, account) := t.value;
      var target := TargetMapping(channels, base, account);
      target := target - {Name("provider_preset"), Name("llm_provider")};
      if provider.Some? {
        var normal := NormalProvider(provider.value);
        if normal.Some? { target := target[Name("provider_preset") := Str(normal.value)]; }
      }
      channels := StoreAt(channels, base, account, target);
    }

    method SetModelOverrideForChannel(channel: string, model: Option<string>)
      modifies this
      ensures channels == Written(old(channels), channel, SetModel(model))
    {
      var t := LlmOverrideTarget(channel);
      if t.None? { return; }
      var (base, account) := t.value;
      var target := TargetMapping(channels, base, account);
      target := target - {Name("model")};
      if model.Some? {
        var normal := NormalModel(model.value);
        if normal.Some? { target := target[Name("model") := Str(normal.value)]; }
      }
      channels := StoreAt(channels, base, account, target);
    }

    method ProviderOverrideForChannel(channel: string) returns (r: Option<string>)
      ensures r == Resolve(channels, channel, ProviderOf)
    {
      r := OverrideForChannel(channel, ProviderOf);
    }

    method ModelOverrideForChannel(channel: string) returns (r: Option<string>)
      ensures r == Resolve(channels, channel, ModelOf)
    {
      r := OverrideForChannel(channel, ModelOf);
    }

    method OverrideForChannel(channel: string, read: Reader) returns (r: Option<string>)
      ensures r == Resolve(channels, channel, read)
    {
      var parts := SplitDot(channel);
      if parts.Some? {
        var (base, account) := parts.value;
        r := AccountOverride(channels, base, account, read);
        if r.Some? { return; }
        return ChannelOverride(channels, base, read);
      }
      var defaultAccount := ChannelDefaultAccountId(channels, channel);
      if defaultAccount.Some? {
        r := AccountOverride(channels, channel, defaultAccount.value, read);
        if r.Some? { return; }
      }
      return ChannelOverride(channels, channel, read);
    }
  }

  // ----- store laws -----

  /** A reader looks at a mapping's own entries, never at its accounts. */
  ghost predicate IgnoresAccounts(read: Reader) {
    && (forall m, v :: read(Mapping(WithAccounts(m, v))) == read(Mapping(m)))
    && (forall v: Value :: !v.Mapping? ==> read(v) == None)
    && read(Mapping(map[])) == None
  }

  /** An edit leaves the accounts and the choice of the default account alone. */
  ghost predicate KeepsAccounts(edit: Edit) {
    forall m :: Entry(edit(m), Name("accounts")) == Entry(m, Name("accounts"))
                && Entry(edit(m), Name("default_account")) == Entry(m, Name("default_account"))
  }

  /** A channel name whose parts are trimmed and not empty. */
  predicate Canonical(channel: string) {
    var parts := SplitDot(channel);
    if parts.None? then channel != "" && Tight(channel)
    else parts.value.0 != "" && Tight(parts.value.0) && parts.value.1 != "" && Tight(parts.value.1)
  }

  function BaseOf(channel: string): string {
    var parts := SplitDot(channel);
    if parts.Some? then parts.value.0 else channel
  }

  /** The account `Resolve` looks at first. */
  ghost function AccountOf(channels: Channels, channel: string): Option<string> {
    var parts := SplitDot(channel);
    if parts.Some? then Some(parts.value.1) else DefaultOf(channels, channel)
  }

  lemma CanonicalTarget(channels: Channels, channel: string)
    requires Canonical(channel)
    ensures Target(channels, channel) == Some((BaseOf(channel), AccountOf(channels, channel)))
  {
    var parts := SplitDot(channel);
    if parts.Some? {
      var (b, a) := parts.value;
      assert channel[0] == b[0] && channel[|channel| - 1] == a[|a| - 1];
    }
    assert Tight(channel);
  }

  /** White space around a name makes no difference to where an override is written. */
  lemma {:induction false} TargetOfPadded(channels: Channels, lead: string, base: string, trail: string)
    requires AllWhitespace(lead) && AllWhitespace(trail) && base != "" && Tight(base) && '.' !in base
    ensures Target(channels, lead + base + trail) == Some((base, DefaultOf(channels, base)))
  {
    TrimPadded(lead, base, trail);
  }

  /** Nor does white space around the parts of one. */
  lemma {:induction false} TargetOfPaddedParts(channels: Channels, w: seq<string>, base: string, account: string)
    requires |w| == 4 && forall x :: x in w ==> AllWhitespace(x)
    requires base != "" && Tight(base) && '.' !in base && account != "" && Tight(account)
    ensures Target(channels, (w[0] + base + w[1]) + "." + (w[2] + account + w[3])) == Some((base, Some(account)))
  {
    var b, a := base + w[1], w[2] + account;
    PaddedHasNoDot(w[0], base, w[1]);
    PaddedName(w[0], base, w[1], w[2], account, w[3]);
    SplitJoined(b, a);
    TrimPadded("", base, w[1]);
    TrimPadded(w[2], account, "");
    assert "" + base + w[1] == b && w[2] + account + "" == a;
  }

  lemma {:induction false} PaddedHasNoDot(lead: string, s: string, trail: string)
    requires AllWhitespace(lead) && AllWhitespace(trail) && '.' !in s
    ensures '.' !in s + trail
  {
  }

  lemma {:induction false} PaddedName(a: string, base: string, b: string, c: string, account: string, d: string)
    requires AllWhitespace(a) && AllWhitespace(d) && base != "" && Tight(base) && account != "" && Tight(account)
    ensures Trim((a + base + b) + "." + (c + account + d)) == (base + b) + "." + (c + account)
  {
    var core := (base + b) + "." + (c + account);
    assert (a + base + b) + "." + (c + account + d) == a + core + d;
    assert core[0] == base[0] && core[|core| - 1] == account[|account| - 1];
    TrimPadded(a, core, d);
  }

  lemma AccountNamesOf(cfg: Value, a: string)
    ensures a in AccountNames(cfg) <==> Name(a) in AsMapping(Get(cfg, "accounts"))
  {
  }

  lemma SameNames(a: Value, b: Value)
    requires AsMapping(Get(a, "accounts")).Keys == AsMapping(Get(b, "accounts")).Keys
    ensures AccountNames(a) == AccountNames(b)
  {
    forall n
      ensures n in AccountNames(a) <==> n in AccountNames(b)
    {
      AccountNamesOf(a, n);
      AccountNamesOf(b, n);
    }
  }

  /** Storing into an account adds that account and changes nothing else about the accounts. */
  lemma StoreInAccount(channels: Channels, channel: string, account: string, m: map<Key, Value>)
    ensures var cfg' := StoreAt(channels, channel, Some(account), m)[channel];
            && AsMapping(Get(cfg', "accounts")) ==
               AsMapping(Entry(AsMapping(Entry(channels, channel)), Name("accounts")))[Name(account) := Mapping(m)]
            && ExplicitDefault(cfg') == (if channel in channels then ExplicitDefault(channels[channel]) else None)
            && AccountNames(cfg') == (if channel in channels then AccountNames(channels[channel]) else {}) + {account}
  {
    var cfg' := StoreAt(channels, channel, Some(account), m)[channel];
    forall n
      ensures n in AccountNames(cfg') <==>
              n == account || (channel in channels && n in AccountNames(channels[channel]))
    {
      AccountNamesOf(cfg', n);
      if channel in channels { AccountNamesOf(channels[channel], n); }
    }
  }

  /** A new account becomes the default when none is configured and its name comes first. */
  ghost predicate TakesOverDefault(channels: Channels, channel: string, account: string) {
    var names := if channel in channels then AccountNames(channels[channel]) else {};
    && !(channel in channels && ExplicitDefault(channels[channel]).Some?)
    && account !in names
    && (account == "default" || ("default" !in names && forall n :: n in names ==> LexLeq(account, n)))
  }

  /** Exactly when writing to an account changes which account is the default. */
  lemma DefaultAfterStore(channels: Channels, channel: string, account: string, m: map<Key, Value>)
    ensures var before := DefaultOf(channels, channel);
            var after := DefaultOf(StoreAt(channels, channel, Some(account), m), channel);
            && (before != after <==> TakesOverDefault(channels, channel, account))
            && (before != after ==> after == Some(account))
  {
    StoreInAccount(channels, channel, account, m);
    var names := if channel in channels then AccountNames(channels[channel]) else {};
    var explicit := channel in channels && ExplicitDefault(channels[channel]).Some?;
    if account in names {
      assert names + {account} == names;
    } else if !explicit && "default" !in names && account != "default" {
      LeastAfterAdding(names, account);
    }
  }

  lemma LeastAfterAdding(names: set<string>, a: string)
    requires a !in names
    ensures Least(names + {a}) ==
            if forall n :: n in names ==> LexLeq(a, n) then a else if names == {} then a else Least(names)
  {
    var x := Least(names + {a});
    if forall n :: n in names ==> LexLeq(a, n) {
      if x != a { LexTotal(a, x); }
    } else if names != {} {
      var y := Least(names);
      LexTotal(x, y);
    }
  }

  /** Reading back what was just written: the edited mapping first, then the channel's own override. */
  lemma ReadBack(channels: Channels, channel: string, edit: Edit, read: Reader)
    requires Canonical(channel) && KeepsAccounts(edit) && IgnoresAccounts(read)
    ensures var base, account := BaseOf(channel), AccountOf(channels, channel);
            var m := edit(TargetMapping(channels, base, account));
            Resolve(Written(channels, channel, edit), channel, read) ==
            OrElse(read(Mapping(m)), if account.Some? then ChannelOverride(channels, base, read) else None)
  {
    CanonicalTarget(channels, channel);
    var base, account := BaseOf(channel), AccountOf(channels, channel);
    var m := edit(TargetMapping(channels, base, account));
    var after := Written(channels, channel, edit);
    if account.Some? {
      StoreInAccount(channels, base, account.value, m);
      AccountWriteKeepsChannel(channels, base, account.value, m, read);
      if SplitDot(channel).None? { DefaultAfterStore(channels, channel, account.value, m); }
    } else {
      ChannelWriteKeepsDefault(channels, channel, edit);
    }
  }

  lemma AccountWriteKeepsChannel(channels: Channels, base: string, account: string, m: map<Key, Value>, read: Reader)
    requires IgnoresAccounts(read)
    ensures ChannelOverride(StoreAt(channels, base, Some(account), m), base, read) ==
            ChannelOverride(channels, base, read)
  {
    var cm := AsMapping(Entry(channels, base));
    var accounts := AsMapping(Entry(cm, Name("accounts")));
    var v := Mapping(accounts[Name(account) := Mapping(m)]);
    assert read(Mapping(WithAccounts(cm, v))) == read(Mapping(cm));
  }

  lemma ChannelWriteKeepsDefault(channels: Channels, channel: string, edit: Edit)
    requires KeepsAccounts(edit)
    ensures DefaultOf(StoreAt(channels, channel, None, edit(TargetMapping(channels, channel, None))), channel)
            == DefaultOf(channels, channel)
  {
    var m := TargetMapping(channels, channel, None);
    assert Entry(edit(m), Name("accounts")) == Entry(m, Name("accounts"));
    assert Entry(edit(m), Name("default_account")) == Entry(m, Name("default_account"));
    if channel in channels {
      SameNames(Mapping(edit(m)), channels[channel]);
    } else {
      SameNames(Mapping(edit(m)), Mapping(map[]));
      assert AccountNames(Mapping(edit(m))) == {};
    }
  }

  lemma ProviderIgnoresAccounts()
    ensures IgnoresAccounts(ProviderOf)
  {
    forall m, v
      ensures ProviderOf(Mapping(WithAccounts(m, v))) == ProviderOf(Mapping(m))
    {
      KeysDiffer();
    }
  }

  lemma ModelIgnoresAccounts()
    ensures IgnoresAccounts(ModelOf)
  {
    forall m, v
      ensures ModelOf(Mapping(WithAccounts(m, v))) == ModelOf(Mapping(m))
    {
      KeysDiffer();
    }
  }

  lemma ProviderKeepsAccounts(provider: Option<string>)
    ensures KeepsAccounts(SetProvider(provider))
  {
    forall m
      ensures Entry(SetProvider(provider)(m), Name("accounts")) == Entry(m, Name("accounts"))
      ensures Entry(SetProvider(provider)(m), Name("default_account")) == Entry(m, Name("default_account"))
    {
      KeysDiffer();
    }
  }

  lemma ModelKeepsAccounts(model: Option<string>)
    ensures KeepsAccounts(SetModel(model))
  {
    forall m
      ensures Entry(SetModel(model)(m), Name("accounts")) == Entry(m, Name("accounts"))
      ensures Entry(SetModel(model)(m), Name("default_account")) == Entry(m, Name("default_account"))
    {
      KeysDiffer();
    }
  }

  lemma LowerKeepsWhitespace(s: string)
    ensures |Lower(s)| == |s| && forall i :: 0 <= i < |s| ==> IsWhitespace(Lower(s)[i]) == IsWhitespace(s[i])
    ensures Lower(Lower(s)) == Lower(s)
  {
  }

  /** Normal forms are fixed: reading a stored override normalises nothing further. */
  lemma NormalFormsAreFixed(s: string)
    ensures NormalProvider(s).Some? ==> NormalProvider(NormalProvider(s).value) == NormalProvider(s)
    ensures NormalModel(s).Some? ==> NormalModel(NormalModel(s).value) == NormalModel(s)
  {
    LowerKeepsWhitespace(Trim(s));
    assert Tight(Lower(Trim(s)));
  }

  /** An edit that a reader does not notice changes nothing for that reader. */
  lemma UnnoticedEdit(channels: Channels, channel: string, edit: Edit, read: Reader)
    requires Canonical(channel) && KeepsAccounts(edit) && IgnoresAccounts(read)
    requires var m := TargetMapping(channels, BaseOf(channel), AccountOf(channels, channel));
             read(Mapping(edit(m))) == read(Mapping(m))
    ensures Resolve(Written(channels, channel, edit), channel, read) == Resolve(channels, channel, read)
  {
    ReadBack(channels, channel, edit, read);
  }

  lemma KeysDiffer()
    ensures Name("provider_preset") != Name("llm_provider")
    ensures Name("model") != Name("provider_preset") && Name("model") != Name("llm_provider")
    ensures Name("accounts") !in {Name("provider_preset"), Name("llm_provider"), Name("model")}
    ensures Name("default_account") !in {Name("accounts"), Name("provider_preset"), Name("llm_provider"), Name("model")}
  {
    assert |"provider_preset"| == 15 && |"llm_provider"| == 12 && |"model"| == 5 && |"accounts"| == 8;
    assert "default_account"[0] == 'd' && "provider_preset"[0] == 'p';
  }

  lemma SameProvider(a: map<Key, Value>, b: map<Key, Value>)
    requires Entry(a, Name("provider_preset")) == Entry(b, Name("provider_preset"))
    requires Entry(a, Name("llm_provider")) == Entry(b, Name("llm_provider"))
    ensures ProviderOf(Mapping(a)) == ProviderOf(Mapping(b))
  {
  }

  lemma SameModel(a: map<Key, Value>, b: map<Key, Value>)
    requires Entry(a, Name("model")) == Entry(b, Name("model"))
    ensures ModelOf(Mapping(a)) == ModelOf(Mapping(b))
  {
  }

  lemma EditedByProvider(m: map<Key, Value>, provider: Option<string>)
    ensures ProviderOf(Mapping(SetProvider(provider)(m))) ==
            (if provider.Some? then NormalProvider(provider.value) else None)
    ensures ModelOf(Mapping(SetProvider(provider)(m))) == ModelOf(Mapping(m))
  {
    KeysDiffer();
    var m' := SetProvider(provider)(m);
    SameModel(m', m);
    assert Name("llm_provider") !in m';
    if provider.Some? && NormalProvider(provider.value).Some? {
      NormalFormsAreFixed(provider.value);
      SameProvider(m', map[Name("provider_preset") := Str(NormalProvider(provider.value).value)]);
    } else {
      SameProvider(m', map[]);
    }
  }

  lemma EditedByModel(m: map<Key, Value>, model: Option<string>)
    ensures ModelOf(Mapping(SetModel(model)(m))) == (if model.Some? then NormalModel(model.value) else None)
    ensures ProviderOf(Mapping(SetModel(model)(m))) == ProviderOf(Mapping(m))
  {
    KeysDiffer();
    var m' := SetModel(model)(m);
    SameProvider(m', m);
    if model.Some? && NormalModel(model.value).Some? {
      NormalFormsAreFixed(model.value);
      SameModel(m', map[Name("model") := Str(NormalModel(model.value).value)]);
    } else {
      SameModel(m', map[]);
    }
  }

  /** What is uncovered when the account in front of a channel has no override of its own. */
  ghost function Behind(channels: Channels, channel: string, read: Reader): Option<string> {
    if AccountOf(channels, channel).Some? then ChannelOverride(channels, BaseOf(channel), read) else None
  }

  /** Setting a provider and resolving gives its normal form; clearing it, or setting a blank one, uncovers
      the override of the channel behind the account. Model overrides do not change. */
  lemma ProviderReadBack(channels: Channels, channel: string, provider: Option<string>)
    requires Canonical(channel)
    ensures var after := Written(channels, channel, SetProvider(provider));
            && Resolve(after, channel, ProviderOf) ==
               OrElse(if provider.Some? then NormalProvider(provider.value) else None,
                      Behind(channels, channel, ProviderOf))
            && Resolve(after, channel, ModelOf) == Resolve(channels, channel, ModelOf)
  {
    EditedByProvider(TargetMapping(channels, BaseOf(channel), AccountOf(channels, channel)), provider);
    ProviderIgnoresAccounts();
    ModelIgnoresAccounts();
    ProviderKeepsAccounts(provider);
    ReadBack(channels, channel, SetProvider(provider), ProviderOf);
    UnnoticedEdit(channels, channel, SetProvider(provider), ModelOf);
  }

  /** The same for models. */
  lemma ModelReadBack(channels: Channels, channel: string, model: Option<string>)
    requires Canonical(channel)
    ensures var after := Written(channels, channel, SetModel(model));
            && Resolve(after, channel, ModelOf) ==
               OrElse(if model.Some? then NormalModel(model.value) else None, Behind(channels, channel, ModelOf))
            && Resolve(after, channel, ProviderOf) == Resolve(channels, channel, ProviderOf)
  {
    EditedByModel(TargetMapping(channels, BaseOf(channel), AccountOf(channels, channel)), model);
    ProviderIgnoresAccounts();
    ModelIgnoresAccounts();
    ModelKeepsAccounts(model);
    ReadBack(channels, channel, SetModel(model), ModelOf);
    UnnoticedEdit(channels, channel, SetModel(model), ProviderOf);
  }

  /** Whether a write for `channel` leaves what `other` resolves to alone: another channel, or another
      account of the same one that does not become the default by the write. */
  ghost predicate Unaffected(channels: Channels, channel: string, other: string) {
    var base, account := BaseOf(channel), AccountOf(channels, channel);
    || BaseOf(other) != base
    || (account.Some? && AccountOf(channels, other) != account
        && (SplitDot(other).None? ==> !TakesOverDefault(channels, base, account.value)))
  }

  lemma SiblingsUnchanged(channels: Channels, base: string, account: string, m: map<Key, Value>, read: Reader,
                          other: string)
    requires IgnoresAccounts(read) && BaseOf(other) == base && AccountOf(channels, other) != Some(account)
    requires SplitDot(other).None? ==> !TakesOverDefault(channels, base, account)
    ensures Resolve(StoreAt(channels, base, Some(account), m), other, read) == Resolve(channels, other, read)
  {
    var after := StoreAt(channels, base, Some(account), m);
    StoreInAccount(channels, base, account, m);
    AccountWriteKeepsChannel(channels, base, account, m, read);
    DefaultAfterStore(channels, base, account, m);
    assert forall a :: a != account ==> AccountValue(after, base, a) == AccountValue(channels, base, a);
  }

  /** Every other channel and every other account resolves as before. */
  lemma OthersUnchanged(channels: Channels, channel: string, edit: Edit, read: Reader, other: string)
    requires Canonical(channel) && IgnoresAccounts(read) && Unaffected(channels, channel, other)
    ensures Resolve(Written(channels, channel, edit), other, read) == Resolve(channels, other, read)
  {
    CanonicalTarget(channels, channel);
    var base, account := BaseOf(channel), AccountOf(channels, channel);
    var m := edit(TargetMapping(channels, base, account));
    if BaseOf(other) == base {
      SiblingsUnchanged(channels, base, account.value, m, read, other);
    } else {
      OtherChannelUnchanged(channels, base, account, m, read, other);
    }
  }

  lemma OtherChannelUnchanged(channels: Channels, base: string, account: Option<string>, m: map<Key, Value>,
                              read: Reader, other: string)
    requires BaseOf(other) != base
    ensures Resolve(StoreAt(channels, base, account, m), other, read) == Resolve(channels, other, read)
  {
    var after, o := StoreAt(channels, base, account, m), BaseOf(other);
    assert o in after <==> o in channels;
    assert o in channels ==> after[o] == channels[o];
  }

  /** An edit that leaves every entry alone but those under `keys`. */
  ghost predicate EditsOnly(edit: Edit, keys: set<Key>) {
    forall m: map<Key, Value>, k :: k !in keys ==> Entry(edit(m), k) == Entry(m, k)
  }

  lemma {:induction false} SettersEditOnly(provider: Option<string>, model: Option<string>)
    ensures EditsOnly(SetProvider(provider), {Name("provider_preset"), Name("llm_provider")})
    ensures EditsOnly(SetModel(model), {Name("model")})
  {
  }

  /** Nothing but the target of a write changes: other channels stay, and other entries of the target, other accounts
      and other entries of the channel. */
  lemma {:induction false} WriteKeepsChannels(channels: Channels, channel: string, edit: Edit)
    requires Target(channels, channel).Some?
    ensures var base, after := Target(channels, channel).value.0, Written(channels, channel, edit);
            && after.Keys == channels.Keys + {base} && after[base].Mapping?
            && forall c :: c in channels && c != base ==> after[c] == channels[c]
  {
  }

  lemma {:induction false} WriteKeepsEntries(channels: Channels, channel: string, edit: Edit, keys: set<Key>, k: Key)
    requires Target(channels, channel).Some? && EditsOnly(edit, keys) && k !in keys
    ensures var (base, account) := Target(channels, channel).value;
            var before, after := AsMapping(Entry(channels, base)),
                AsMapping(Entry(Written(channels, channel, edit), base));
            && (account.None? || k != Name("accounts") ==> Entry(after, k) == Entry(before, k))
            && (account.Some? ==> Entry(AsMapping(AccountIn(after, account.value)), k)
                                  == Entry(AsMapping(AccountIn(before, account.value)), k))
  {
    var (base, account) := Target(channels, channel).value;
    var m := TargetMapping(channels, base, account);
    assert Entry(edit(m), k) == Entry(m, k);
  }

  function AccountIn(m: map<Key, Value>, account: string): Option<Value> {
    Entry(AsMapping(Entry(m, Name("accounts"))), Name(account))
  }

  lemma {:induction false} WriteKeepsAccounts(channels: Channels, channel: string, edit: Edit, a: string)
    requires Target(channels, channel).Some? && Target(channels, channel).value.1.Some?
    requires Some(a) != Target(channels, channel).value.1
    ensures var base := Target(channels, channel).value.0;
            AccountIn(AsMapping(Entry(Written(channels, channel, edit), base)), a) ==
                AccountIn(AsMapping(Entry(channels, base)), a)
  {
  }

  // ----- the flattened index -----

  ghost predicate HasProvider(channels: Channels, c: string, a: string) {
    AccountOverride(channels, c, a, ProviderOf).Some?
  }

  /** The key under which an account's provider is filed. */
  ghost function IndexKey(channels: Channels, c: string, a: string): string {
    if DefaultOf(channels, c) == Some(a) then c else c + "." + a
  }

  /** An account in `done` accounts for the entry `k` with value `v`. */
  ghost predicate FiledBy(channels: Channels, done: set<(string, string)>, k: string, v: string) {
    exists c, a :: (c, a) in done && IndexKey(channels, c, a) == k &&
        AccountOverride(channels, c, a, ProviderOf) == Some(v)
  }

  ghost predicate NotFiled(channels: Channels, done: set<(string, string)>, k: string) {
    forall c, a :: (c, a) in done && HasProvider(channels, c, a) ==> IndexKey(channels, c, a) != k
  }

  /** The accounts in `done` have been filed over the channels' own providers, in some order. */
  ghost predicate Filed(channels: Channels, done: set<(string, string)>, table: map<string, string>) {
    && (forall k :: k in table ==>
          || FiledBy(channels, done, k, table[k])
          || (ChannelOverride(channels, k, ProviderOf) == Some(table[k]) && NotFiled(channels, done, k)))
    && (forall k :: ChannelOverride(channels, k, ProviderOf).Some? ==> k in table)
    && (forall c, a :: (c, a) in done && HasProvider(channels, c, a) ==> IndexKey(channels, c, a) in table)
  }

  // The order in which the loops walk the accounts: channel by channel, each account once.

  function OwnProviders(channels: Channels): map<string, string> {
    map c | c in channels && ProviderOf(channels[c]).Some? :: ProviderOf(channels[c]).value
  }

  ghost function FileEntry(channels: Channels, table: map<string, string>, c: string, a: string): map<string, string> {
    if HasProvider(channels, c, a) then
      table[IndexKey(channels, c, a) := AccountOverride(channels, c, a, ProviderOf).value]
    else table
  }

  ghost function Walk(channels: Channels, order: seq<(string, string)>): map<string, string> {
    if order == [] then OwnProviders(channels)
    else
      var (c, a) := order[|order| - 1];
      FileEntry(channels, Walk(channels, order[..|order| - 1]), c, a)
  }

  lemma WalkOn(channels: Channels, order: seq<(string, string)>, c: string, a: string)
    ensures Walk(channels, order + [(c, a)]) == FileEntry(channels, Walk(channels, order), c, a)
  {
    assert (order + [(c, a)])[..|order|] == order;
  }

  ghost predicate IsAccount(channels: Channels, p: (string, string)) {
    p.0 in channels && p.1 in AccountNames(channels[p.0])
  }

  ghost predicate Distinct(order: seq<(string, string)>) {
    forall i, j :: 0 <= i < j < |order| ==> order[i] != order[j]
  }

  ghost predicate Grouped(order: seq<(string, string)>) {
    forall i, j, k :: 0 <= i < j < k < |order| && order[i].0 == order[k].0 ==> order[j].0 == order[i].0
  }

  ghost predicate Visits(channels: Channels, order: seq<(string, string)>, cs: set<string>) {
    && (forall p :: p in order <==> p.0 in cs && IsAccount(channels, p))
    && Distinct(order) && Grouped(order)
  }

  ghost predicate VisitsOne(channels: Channels, part: seq<(string, string)>, c: string) {
    (forall p :: p in part <==> p.0 == c && IsAccount(channels, p)) && Distinct(part)
  }

  lemma VisitNext(channels: Channels, order: seq<(string, string)>, cs: set<string>, part: seq<(string, string)>,
                  c: string)
    requires Visits(channels, order, cs) && VisitsOne(channels, part, c) && c !in cs
    ensures Visits(channels, order + part, cs + {c})
  {
    assert forall i :: 0 <= i < |order| ==> order[i] in order;
    assert forall i :: 0 <= i < |part| ==> part[i] in part;
  }

  /** A possible result of `llm_provider_overrides`, in whatever order the maps are walked. */
  ghost predicate IsIndex(channels: Channels, table: map<string, string>) {
    exists order :: Visits(channels, order, channels.Keys) && table == Walk(channels, order)
  }

  method LlmProviderOverrides(channels: Channels) returns (overrides: map<string, string>)
    ensures IsIndex(channels, overrides)
  {
    overrides := map c | c in channels && ProviderOf(channels[c]).Some? :: ProviderOf(channels[c]).value;
    ghost var order: seq<(string, string)> := [];
    var todo := channels.Keys;
    while todo != {}
      invariant todo <= channels.Keys
      invariant Visits(channels, order, channels.Keys - todo)
      invariant overrides == Walk(channels, order)
      decreases |todo|
    {
      var channel :| channel in todo;
      ghost var part;
      overrides, part := FileAccounts(channels, channel, overrides, order);
      VisitNext(channels, order, channels.Keys - todo, part, channel);
      order := order + part;
      assert channels.Keys - todo + {channel} == channels.Keys - (todo - {channel});
      todo := todo - {channel};
    }
    assert channels.Keys - todo == channels.Keys;
  }

  /** `part` visits the accounts of `c` that `keys` name. */
  ghost predicate VisitsKeys(part: seq<(string, string)>, c: string, keys: set<Key>) {
    (forall p :: p in part <==> p.0 == c && Name(p.1) in keys) && Distinct(part)
  }

  lemma VisitKey(part: seq<(string, string)>, c: string, keys: set<Key>, key: Key)
    requires VisitsKeys(part, c, keys) && key !in keys
    ensures VisitsKeys(if key.Name? then part + [(c, key.name)] else part, c, keys + {key})
  {
    assert forall i :: 0 <= i < |part| ==> part[i] in part;
  }

  lemma VisitsAllKeys(channels: Channels, part: seq<(string, string)>, c: string)
    requires c in channels && VisitsKeys(part, c, AsMapping(Get(channels[c], "accounts")).Keys)
    ensures VisitsOne(channels, part, c)
  {
    forall p
      ensures p in part <==> p.0 == c && IsAccount(channels, p)
    {
      AccountNamesOf(channels[c], p.1);
    }
  }

  /** The inner loop, over the accounts of one channel. */
  method FileAccounts(channels: Channels, channel: string, table: map<string, string>,
                      ghost before: seq<(string, string)>)
    returns (overrides: map<string, string>, ghost part: seq<(string, string)>)
    requires channel in channels && table == Walk(channels, before)
    ensures VisitsOne(channels, part, channel) && overrides == Walk(channels, before + part)
  {
    overrides, part := table, [];
    var accounts := AsMapping(Get(channels[channel], "accounts"));
    var defaultAccount := ChannelDefaultAccountId(channels, channel);
    var keys := accounts.Keys;
    ghost var done: set<Key> := {};
    assert before + part == before;
    while keys != {}
      invariant keys !! done && keys + done == accounts.Keys
      invariant overrides == Walk(channels, before + part)
      invariant VisitsKeys(part, channel, done)
      decreases |keys|
    {
      var key :| key in keys;
      VisitKey(part, channel, done, key);
      keys, done := keys - {key}, done + {key};
      if key.OtherKey? { continue; }
      var accountId := key.name;
      var provider := ProviderOf(accounts[key]);
      WalkOn(channels, before + part, channel, accountId);
      ConcatAssoc(before, part, [(channel, accountId)]);
      part := part + [(channel, accountId)];
      if provider.None? { continue; }
      var k := if defaultAccount == Some(accountId) then channel else channel + "." + accountId;
      overrides := overrides[k := provider.value];
    }
    VisitsAllKeys(channels, part, channel);
  }

  /** Every index is the work of some set of filed accounts that has all of them. */
  lemma IndexIsFiled(channels: Channels, table: map<string, string>) returns (done: set<(string, string)>)
    requires IsIndex(channels, table)
    ensures Filed(channels, done, table) && forall c, a :: HasProvider(channels, c, a) ==> (c, a) in done
  {
    var order :| Visits(channels, order, channels.Keys) && table == Walk(channels, order);
    WalkIsFiled(channels, order);
    done := Walked(order);
    forall c, a | HasProvider(channels, c, a)
      ensures (c, a) in done
    {
      AccountNamesOf(channels[c], a);
      assert IsAccount(channels, (c, a));
    }
  }

  ghost function Walked(order: seq<(string, string)>): set<(string, string)> {
    set p | p in order
  }

  lemma {:induction false} WalkIsFiled(channels: Channels, order: seq<(string, string)>)
    ensures Filed(channels, Walked(order), Walk(channels, order))
  {
    if order != [] {
      var rest, p := order[..|order| - 1], order[|order| - 1];
      WalkIsFiled(channels, rest);
      assert order == rest + [p];
      assert Walked(order) == Walked(rest) + {p};
      assert p == (p.0, p.1);
      if HasProvider(channels, p.0, p.1) {
        FileOne(channels, Walked(rest), p.0, p.1, Walk(channels, rest));
      } else {
        FileNothing(channels, Walked(rest), p.0, p.1, Walk(channels, rest));
      }
    }
  }

  lemma FileNothing(channels: Channels, done: set<(string, string)>, c: string, a: string, table: map<string, string>)
    requires Filed(channels, done, table) && !HasProvider(channels, c, a)
    ensures Filed(channels, done + {(c, a)}, table)
  {
  }

  lemma FileOne(channels: Channels, done: set<(string, string)>, c: string, a: string, table: map<string, string>)
    requires Filed(channels, done, table) && HasProvider(channels, c, a)
    ensures Filed(channels, done + {(c, a)},
                  table[IndexKey(channels, c, a) := AccountOverride(channels, c, a, ProviderOf).value])
  {
    var k0, v0 := IndexKey(channels, c, a), AccountOverride(channels, c, a, ProviderOf).value;
    var table', done' := table[k0 := v0], done + {(c, a)};
    forall k | k in table'
      ensures || FiledBy(channels, done', k, table'[k])
              || (ChannelOverride(channels, k, ProviderOf) == Some(table'[k]) && NotFiled(channels, done', k))
    {
      if k == k0 {
        assert (c, a) in done';
      } else if FiledBy(channels, done, k, table[k]) {
        var c', a' :| (c', a') in done && IndexKey(channels, c', a') == k
                      && AccountOverride(channels, c', a', ProviderOf) == Some(table[k]);
        assert (c', a') in done';
      }
    }
  }

  /** The index holds for every undotted name exactly what the resolver answers, for every configuration. */
  lemma IndexAgreesOnChannels(channels: Channels, table: map<string, string>, channel: string)
    requires IsIndex(channels, table) && '.' !in channel
    ensures Entry(table, channel) == Resolve(channels, channel, ProviderOf)
  {
    var done := IndexIsFiled(channels, table);
    forall c, a | IndexKey(channels, c, a) == channel
      ensures c == channel && DefaultOf(channels, channel) == Some(a)
    {
      assert (c + "." + a)[|c|] == '.';
    }
    var account := DefaultOf(channels, channel);
    if account.Some? && HasProvider(channels, channel, account.value) {
      assert IndexKey(channels, channel, account.value) == channel;
      assert (channel, account.value) in done;
    }
  }

  lemma SplitJoined(c: string, a: string)
    requires '.' !in c
    ensures SplitDot(c + "." + a) == Some((c, a))
  {
    var s := c + "." + a;
    assert s[|c|] == '.';
    var (x, y) := SplitDot(s).value;
    assert s[|x|] == '.';
    assert forall i :: 0 <= i < |c| ==> s[i] == c[i] && c[i] in c;
    assert forall i :: 0 <= i < |x| ==> s[i] == x[i] && x[i] in x;
    assert |x| == |c|;
    assert x == s[..|x|] && c == s[..|c|];
    assert y == s[|x| + 1..] && a == s[|c| + 1..];
  }

  /** An account of an undotted channel is filed under its own name or under a key that resolves to it. */
  lemma UndottedAgrees(channels: Channels, c: string, a: string)
    requires '.' !in c && HasProvider(channels, c, a) && '.' in IndexKey(channels, c, a)
    ensures Resolve(channels, IndexKey(channels, c, a), ProviderOf) == AccountOverride(channels, c, a, ProviderOf)
  {
    SplitJoined(c, a);
  }

  /** The dotted keys that the account `a` of the channel `c` and the channel itself are filed under resolve
      to what is filed, unless the channel's own provider is filed over. */
  ghost predicate AccountHarmless(channels: Channels, c: string, a: string) {
    HasProvider(channels, c, a) ==>
      Resolve(channels, IndexKey(channels, c, a), ProviderOf) == AccountOverride(channels, c, a, ProviderOf)
  }

  ghost predicate FiledOver(channels: Channels, key: string) {
    exists c, a :: HasProvider(channels, c, a) && IndexKey(channels, c, a) == key
  }

  ghost predicate OwnHarmless(channels: Channels, c: string) {
    ChannelOverride(channels, c, ProviderOf).Some? ==>
      FiledOver(channels, c) || Resolve(channels, c, ProviderOf) == ChannelOverride(channels, c, ProviderOf)
  }

  /** Whether a channel with a dotted name does any harm to the index. */
  ghost predicate Harmless(channels: Channels, c: string) {
    OwnHarmless(channels, c) && forall a :: AccountHarmless(channels, c, a)
  }

  ghost predicate DottedChannelsHarmless(channels: Channels) {
    forall c :: c in channels && '.' in c ==> Harmless(channels, c)
  }

  /** A dotted key of the index carries the resolver's answer when no channel with a dotted name does harm. */
  lemma IndexAgreesWhereHarmless(channels: Channels, table: map<string, string>, key: string)
    requires IsIndex(channels, table) && DottedChannelsHarmless(channels)
    requires '.' in key && key in table
    ensures Resolve(channels, key, ProviderOf) == Some(table[key])
  {
    var done := IndexIsFiled(channels, table);
    if FiledBy(channels, done, key, table[key]) {
      var c, a :| (c, a) in done && IndexKey(channels, c, a) == key
                  && AccountOverride(channels, c, a, ProviderOf) == Some(table[key]);
      if '.' in c {
        assert Harmless(channels, c) && AccountHarmless(channels, c, a);
      } else {
        UndottedAgrees(channels, c, a);
      }
    } else {
      assert Harmless(channels, key) && !FiledOver(channels, key);
    }
  }

  predicate NoDottedChannel(channels: Channels) {
    forall c :: c in channels ==> '.' !in c
  }

  /** So it does when no channel name has a dot in it. */
  lemma IndexAgreesOnAccounts(channels: Channels, table: map<string, string>, key: string)
    requires IsIndex(channels, table) && NoDottedChannel(channels)
    requires '.' in key && key in table
    ensures Resolve(channels, key, ProviderOf) == Some(table[key])
  {
    IndexAgreesWhereHarmless(channels, table, key);
  }

  ghost predicate KeyAgrees(channels: Channels, table: map<string, string>, key: string) {
    key in table ==> Resolve(channels, key, ProviderOf) == Some(table[key])
  }

  ghost predicate DottedKeysAgree(channels: Channels) {
    forall table, key :: IsIndex(channels, table) && '.' in key ==> KeyAgrees(channels, table, key)
  }

  lemma {:induction false} OrderOf(channels: Channels, cs: set<string>) returns (order: seq<(string, string)>)
    requires cs <= channels.Keys
    ensures Visits(channels, order, cs)
  {
    order := [];
    if cs != {} {
      var c :| c in cs;
      var before := OrderOf(channels, cs - {c});
      var part := OrderOfAccounts(c, AccountNames(channels[c]));
      VisitNext(channels, before, cs - {c}, part, c);
      assert cs - {c} + {c} == cs;
      order := before + part;
    }
  }

  lemma {:induction false} OrderOfAccounts(c: string, names: set<string>) returns (part: seq<(string, string)>)
    ensures Distinct(part) && forall p :: p in part <==> p.0 == c && p.1 in names
  {
    part := [];
    if names != {} {
      var a :| a in names;
      var before := OrderOfAccounts(c, names - {a});
      part := before + [(c, a)];
    }
  }

  lemma OrderEndingWith(channels: Channels, c: string, a: string) returns (before: seq<(string, string)>)
    requires IsAccount(channels, (c, a))
    ensures Visits(channels, before + [(c, a)], channels.Keys)
  {
    var others := OrderOf(channels, channels.Keys - {c});
    var most := OrderOfAccounts(c, AccountNames(channels[c]) - {a});
    VisitNext(channels, others, channels.Keys - {c}, most + [(c, a)], c);
    assert channels.Keys - {c} + {c} == channels.Keys;
    ConcatAssoc(others, most, [(c, a)]);
    before := others + most;
  }

  /** Some walking order files the account `a` of `c` last. */
  lemma IndexFilingLast(channels: Channels, c: string, a: string) returns (table: map<string, string>)
    requires HasProvider(channels, c, a)
    ensures IsIndex(channels, table) &&
            Entry(table, IndexKey(channels, c, a)) == AccountOverride(channels, c, a, ProviderOf)
  {
    AccountNamesOf(channels[c], a);
    var before := OrderEndingWith(channels, c, a);
    WalkOn(channels, before, c, a);
    table := Walk(channels, before + [(c, a)]);
  }

  lemma SomeIndex(channels: Channels) returns (table: map<string, string>)
    ensures IsIndex(channels, table)
  {
    var order := OrderOf(channels, channels.Keys);
    table := Walk(channels, order);
  }

  /** What is filed under a key that no account takes is the channel's own provider. */
  lemma OwnEntryStays(channels: Channels, table: map<string, string>, c: string)
    requires IsIndex(channels, table) && ChannelOverride(channels, c, ProviderOf).Some? && !FiledOver(channels, c)
    ensures c in table && Some(table[c]) == ChannelOverride(channels, c, ProviderOf)
  {
    var done := IndexIsFiled(channels, table);
    assert !FiledBy(channels, done, c, table[c]);
  }

  /** Exactly when every dotted key of every possible index carries the resolver's answer: when no channel
      with a dotted name files anything that its key does not resolve to. */
  lemma DottedKeysAgreeExactly(channels: Channels)
    ensures DottedKeysAgree(channels) <==> DottedChannelsHarmless(channels)
  {
    if DottedKeysAgree(channels) {
      forall c | c in channels && '.' in c
        ensures Harmless(channels, c)
      {
        AgreementIsHarmless(channels, c);
      }
    }
    if DottedChannelsHarmless(channels) {
      forall table, key | IsIndex(channels, table) && '.' in key
        ensures KeyAgrees(channels, table, key)
      {
        if key in table { IndexAgreesWhereHarmless(channels, table, key); }
      }
    }
  }

  lemma AgreementIsHarmless(channels: Channels, c: string)
    requires DottedKeysAgree(channels) && '.' in c
    ensures Harmless(channels, c)
  {
    forall a
      ensures AccountHarmless(channels, c, a)
    {
      if HasProvider(channels, c, a) {
        var table := IndexFilingLast(channels, c, a);
        assert KeyAgrees(channels, table, IndexKey(channels, c, a));
      }
    }
    if ChannelOverride(channels, c, ProviderOf).Some? && !FiledOver(channels, c) {
      var table := SomeIndex(channels);
      OwnEntryStays(channels, table, c);
      assert KeyAgrees(channels, table, c);
    }
  }

  /** A set of channel names is safe for every configuration with these names exactly when none is dotted. */
  lemma SafeNamesAreUndotted(names: set<string>)
    ensures (forall channels: Channels :: channels.Keys == names ==> DottedKeysAgree(channels))
            <==> (forall c :: c in names ==> '.' !in c)
  {
    if c :| c in names && '.' in c {
      var channels: Channels := map n | n in names :: if n == c then OwnProvider() else Mapping(map[]);
      assert channels.Keys == names;
      DottedChannelDisagrees(channels, c);
    } else {
      forall channels: Channels | channels.Keys == names
        ensures DottedKeysAgree(channels)
      {
        DottedKeysAgreeExactly(channels);
      }
    }
  }

  function OwnProvider(): Value {
    Mapping(map[Name("llm_provider") := Str("p")])
  }

  lemma OwnProviderIsRead()
    ensures ProviderOf(OwnProvider()) == Some("p")
  {
    assert Trim("p") == "p" by { assert Tight("p"); }
    assert Lower("p") == "p";
    KeysDiffer();
  }

  lemma DottedChannelDisagrees(channels: Channels, c: string)
    requires c in channels && '.' in c && channels[c] == OwnProvider()
    requires forall n :: n in channels && n != c ==> channels[n] == Mapping(map[])
    ensures !DottedKeysAgree(channels)
  {
    OwnProviderIsRead();
    forall x, a
      ensures !HasProvider(channels, x, a)
    {
      if x in channels { assert Get(channels[x], "accounts") == None; }
    }
    var parts := SplitDot(c).value;
    assert |parts.0| < |c|;
    assert Resolve(channels, c, ProviderOf) == None;
    assert !OwnHarmless(channels, c);
    DottedKeysAgreeExactly(channels);
  }
}
