/**
 The nodes of the account graph and the rows they are read from. Scalar fields never change after a
 node is read, so they are constants; the edges of an account are the fields that eager loading fills.
 IDs are int64 keys that are only compared.
 */
module Entities {
  import opened Wrappers

  class Group {
    const id: int
    const name: string

    constructor (id: int, name: string)
      ensures this.id == id && this.name == name
    {
      this.id, this.name := id, name;
    }
  }

  class Proxy {
    const id: int
    const host: string

    constructor (row: ProxyRow)
      ensures id == row.id && host == row.host
    {
      id, host := row.id, row.host;
    }
  }

  class UsageLog {
    const id: int
    const accountID: int

    constructor (id: int, accountID: int)
      ensures this.id == id && this.accountID == accountID
    {
      this.id, this.accountID := id, accountID;
    }
  }

  class AccountGroup {
    const accountID: int
    const groupID: int

    constructor (accountID: int, groupID: int)
      ensures this.accountID == accountID && this.groupID == groupID
    {
      this.accountID, this.groupID := accountID, groupID;
    }
  }

  // Rows. A group row is joined with account_groups, which puts the account ID in front of it.
  datatype AccountRow = AccountRow(id: int, proxyID: Option<int>)
  datatype JoinRow = JoinRow(accountID: int, groupID: int, name: string)
  datatype ProxyRow = ProxyRow(id: int, host: string)
  datatype LogRow = LogRow(id: int, accountID: int)
  datatype LinkRow = LinkRow(accountID: int, groupID: int)

  // The key by which each kind of row is queried, and that of the node read from it.
  function JoinOwner(r: JoinRow): int { r.accountID }
  function LogOwner(r: LogRow): int { r.accountID }
  function LinkOwner(r: LinkRow): int { r.accountID }
  function ProxyKey(r: ProxyRow): int { r.id }
  function OfAccount(l: UsageLog): int { l.accountID }
  function LinkedAccount(l: AccountGroup): int { l.accountID }
  function ProxyID(p: Proxy): int { p.id }

  datatype EdgeError = NotLoaded(edge: string) | NotFound(what: string)

  /** What the query of an edge was told: its selected fields, and its limit (0 for none). */
  datatype EdgeQuery = EdgeQuery(fields: seq<string>, limit: nat)

  /** Which edges a query asked for, in the order of the source's four booleans. */
  datatype Loaded = Loaded(groups: bool, proxy: bool, usageLogs: bool, accountGroups: bool)

  class Account {
    const id: int
    const proxyID: Option<int>
    const loadedTypes: Loaded

    // Edges.
    var groups: seq<Group>
    var proxy: Proxy?
    var usageLogs: seq<UsageLog>
    var accountGroups: seq<AccountGroup>

    /** A node read from a row of which `columns` were selected: an unselected proxy_id stays nil. */
    constructor (row: AccountRow, columns: seq<string>, loadedTypes: Loaded)
      ensures id == (if "id" in columns then row.id else 0)
      ensures proxyID == (if "proxy_id" in columns then row.proxyID else None)
      ensures this.loadedTypes == loadedTypes
      ensures groups == [] && proxy == null && usageLogs == [] && accountGroups == []
    {
      id := if "id" in columns then row.id else 0;
      proxyID := if "proxy_id" in columns then row.proxyID else None;
      this.loadedTypes := loadedTypes;
      groups, proxy, usageLogs, accountGroups := [], null, [], [];
    }

    function GroupsOrErr(): Result<seq<Group>, EdgeError>
      reads this
    {
      if loadedTypes.groups then Success(groups) else Failure(NotLoaded("groups"))
    }

    function ProxyOrErr(): Result<Proxy, EdgeError>
      reads this
    {
      if proxy != null then Success(proxy)
      else if loadedTypes.proxy then Failure(NotFound("proxy"))
      else Failure(NotLoaded("proxy"))
    }

    function UsageLogsOrErr(): Result<seq<UsageLog>, EdgeError>
      reads this
    {
      if loadedTypes.usageLogs then Success(usageLogs) else Failure(NotLoaded("usage_logs"))
    }

    function AccountGroupsOrErr(): Result<seq<AccountGroup>, EdgeError>
      reads this
    {
      if loadedTypes.accountGroups then Success(accountGroups) else Failure(NotLoaded("account_groups"))
    }
  }
}
