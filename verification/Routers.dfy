/**
  The accounts of the connected routers (/ppp/secret and /ip/hotspot/user) and the
  commands the outbox sends to them.  Passwords are opaque strings.
 */
module Routers {

  import opened Subscriptions

  datatype Key = Key(device: nat, service: Service, username: string)

  datatype Account = Account(password: string, profile: string, disabled: bool)

  type Accounts = map<Key, Account>

  /** How the router answers one command. `Lost`: it obeyed, but the reply never arrived. */
  datatype Outcome = Done | Refused | Lost

  datatype Reply = Ok | NotFound | Failed

  function KeyOf(row: Subscription): Key {
    Key(row.device, row.service, row.username)
  }

  /** SecretByName and UserByName refuse an empty name without asking the router. */
  function ByName(accounts: Accounts, key: Key, outcome: Outcome): Reply {
    if key.username == "" || !outcome.Done? then Failed
    else if key in accounts then Ok
    else NotFound
  }

  /** A command that turns the accounts into `changed`. */
  function Obey(accounts: Accounts, changed: Accounts, outcome: Outcome): (Accounts, Reply) {
    match outcome
    case Done => (changed, Ok)
    case Refused => (accounts, Failed)
    case Lost => (changed, Failed)
  }

  /** SecretSet and UserSet omit an empty profile from the command, so it stays as it is. */
  function WithProfile(account: Account, profile: string): Account {
    if profile == "" then account else account.(profile := profile)
  }

  /** What the router gives an account created without a profile. */
  const DEFAULT_PROFILE := "default"

  function NewAccount(password: string, profile: string): Account {
    Account(password, if profile == "" then DEFAULT_PROFILE else profile, false)
  }

  class Router {
    var accounts: Accounts

    constructor (accounts: Accounts)
      ensures this.accounts == accounts
    {
      this.accounts := accounts;
    }

    method SetProfile(key: Key, profile: string, outcome: Outcome) returns (reply: Reply)
      requires key in accounts
      modifies this
      ensures (accounts, reply)
              == Obey(old(accounts), old(accounts)[key := WithProfile(old(accounts)[key], profile)], outcome)
    {
      if !outcome.Refused? {
        accounts := accounts[key := WithProfile(accounts[key], profile)];
      }
      reply := if outcome.Done? then Ok else Failed;
    }

    method SetDisabled(key: Key, disabled: bool, outcome: Outcome) returns (reply: Reply)
      requires key in accounts
      modifies this
      ensures (accounts, reply)
              == Obey(old(accounts), old(accounts)[key := old(accounts)[key].(disabled := disabled)], outcome)
    {
      if !outcome.Refused? {
        accounts := accounts[key := accounts[key].(disabled := disabled)];
      }
      reply := if outcome.Done? then Ok else Failed;
    }

    method Remove(key: Key, outcome: Outcome) returns (reply: Reply)
      requires key in accounts
      modifies this
      ensures (accounts, reply) == Obey(old(accounts), old(accounts) - {key}, outcome)
    {
      if !outcome.Refused? {
        accounts := accounts - {key};
      }
      reply := if outcome.Done? then Ok else Failed;
    }

    /** A router refuses a second account of the same name. */
    method Add(key: Key, account: Account, outcome: Outcome) returns (reply: Reply)
      modifies this
      ensures (accounts, reply) ==
              if key.username == "" || key in old(accounts) then (old(accounts), Failed)
              else Obey(old(accounts), old(accounts)[key := account], outcome)
    {
      if key.username == "" || key in accounts {
        return Failed;
      }
      if !outcome.Refused? {
        accounts := accounts[key := account];
      }
      reply := if outcome.Done? then Ok else Failed;
    }
  }
}
