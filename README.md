# MetaMask state-log explorer: the normalisation layer in Dafny

The state-log explorer takes a MetaMask diagnostic state log, already parsed from
JSON, and shows it as flat lists. The shape of the log varies: the extension keeps
its data at the top level or under `metamask`, while the mobile app keeps it under
`engine.backgroundState.<Controller>`. Each viewer copes with these shapes and
builds one of the lists:

- transactions: merged from up to five collections, with history entries
  deduplicated by id, then sorted by time;
- approvals: pending approvals, the mobile approval controller, the mobile
  permission fan-out and the extension's permission history, then sorted;
- accounts: extension accounts, then mobile accounts not already listed, with
  addresses compared ignoring case;
- origins: a map from origin to usage counters, folded over transactions,
  approvals and visited hostnames, then sorted by last use;
- the variable table: eight settings, each looked up along a priority chain with
  fallbacks per setting, and the app-type row;
- the mobile information card: fixed rows, then optional rows, then a filter.

Beside these sit the risk classifiers, the case-insensitive search filters, and the
helpers of `src/lib/utils.ts`: address truncation, ether formatting, the
block-explorer URL table and the address test.

The model reads the log as a JSON value (module `Json`). `Option.None` stands
for JavaScript's `undefined`. Objects are ordered sequences of members. Every
JavaScript reading the viewers use is defined once, in that module:

- optional property access;
- truthiness;
- `Object.entries` and `Object.values`;
- `===`;
- `||`;
- `String(v)`;
- `join`.

Each viewer is one module.

- **Pure computations** are functions. Where a viewer builds its list with loops
  and `push`, there is also a method with the same loops. The method is proved
  equal to the specification function: `ExtractTransactions`, `ExtractApprovals`,
  `ExtractAccounts`, `AggregateOrigins`/`ExtractOrigins` and
  `CollectMobileVariables`.
- **The library sort** is `Array.prototype.sort` with a numeric descending
  comparator. It is modelled by a stable insertion sort (`Lists.SortDesc`), proved
  to be ordered, a permutation and stable.
- **`Array.prototype.filter`** is `Lists.Filter`.
- **The origins `Map`** is a sequence of records in insertion order. The
  aggregation is a fold of "use" events over it, and every record is proved equal
  to a per-origin fold over those events.

Where the code does something one might not expect, the model follows it:

- `formatEther` never shows a fraction (see Findings).
- The logs without `metamask` give unsorted transaction and approval lists.
- Origins read `metamask.transactions` only in array form.

## Model

| member | source | states |
|---|---|---|
| Json.Get | src/components/state-log-viewers/variable-viewer.tsx:38 | a property read yields a value only on an object, and that value is bound to the key in it |
| Json.Entries | metamask-state-log-explorer/src/components/state-log-viewers/accounts-list.tsx:40 | `Object.entries`: an object's members in order, one entry per array element, nothing for a falsy value |
| Json.OrElse | metamask-state-log-explorer/src/components/state-log-viewers/approvals-list.tsx:97-102 | `v \|\| d` is v when v is truthy and d otherwise |
| Text.ContainsIff | metamask-state-log-explorer/src/components/state-log-viewers/transaction-list.tsx:121-125 | the `includes` used by every search agrees with "t occurs in s at some position" |
| Text.ParseNatToString | src/lib/utils.ts:32-33 | rendering a natural number in decimal and parsing it back gives the number |
| Lists.SortDescSorted | metamask-state-log-explorer/src/components/state-log-viewers/transaction-list.tsx:111 | the descending sort yields a sequence ordered by key, largest first |
| Lists.SortDescPermutes | metamask-state-log-explorer/src/components/state-log-viewers/transaction-list.tsx:111 | the sort keeps every element with its multiplicity |
| Lists.SortDescStable | metamask-state-log-explorer/src/components/state-log-viewers/transaction-list.tsx:111 | elements with equal keys keep their relative order (a stable sort) |
| Lists.SortDescTiesOrdered | metamask-state-log-explorer/src/components/state-log-viewers/origins-list.tsx:109 | sorting a sequence listed in increasing rank leaves each group of equal keys in increasing rank |
| Lists.InsertTiesOrdered | metamask-state-log-explorer/src/components/state-log-viewers/origins-list.tsx:109 | inserting an element of lower rank than all others keeps equal keys in increasing rank |
| Lists.SortDescIdempotent | metamask-state-log-explorer/src/components/state-log-viewers/transaction-list.tsx:111 | sorting a sorted list changes nothing |
| Lists.FilterKeeps | metamask-state-log-explorer/src/components/state-log-viewers/transaction-list.tsx:121 | `filter` keeps, in order and with multiplicity, exactly the elements that pass |
| Utils.FormatDate | src/lib/utils.ts:8-9 | a falsy (zero) timestamp renders as "Unknown"; others go to the locale renderer |
| Utils.TruncateAddress | src/lib/utils.ts:22-27 | absent or empty address gives "Unknown"; up to 2·length+2 characters unchanged; longer ones become first length characters, "...", last length characters, 2·length+3 in all |
| Utils.TruncateStandardAddress | src/lib/utils.ts:22-27 | a 42-character address becomes its first 6 characters, "..." and its last 6 characters, 15 in all |
| Utils.ParseWei | src/lib/utils.ts:32 | a decimal digit string parses to its value; anything else is unparseable |
| Utils.FormatEther | src/lib/utils.ts:29-47 | as written: a digit string gives the decimal rendering of its value divided by 10^18, truncated, never with a "."; anything else gives "0" |
| Utils.FormatEtherTruncates | src/lib/utils.ts:32-42 | the shown whole-ether value times 10^18 is at most the input, and the next whole ether exceeds it |
| Utils.FormatEtherDropsFraction | src/lib/utils.ts:32-42 | 1.5 ether in wei is shown as "1" and 0 as "0" |
| Utils.FractionText | src/lib/utils.ts:37-39 | the corrected fraction has at most 6 digits, no trailing zero, is empty exactly for a zero fraction, and padded back to 6 digits parses to the micro-ether remainder |
| Utils.FormatEtherDecimal | src/lib/utils.ts:29-47 | corrected formatter: whole ether, then "." and up to 6 fraction digits when the fraction is not zero |
| Utils.FormatEtherDecimalOneAndAHalf | src/lib/utils.ts:37-39 | the corrected formatter shows 1.5 ether in wei as "1.5" |
| Utils.FormatEtherDecimalWhole | src/lib/utils.ts:35-42 | a whole number of ether is shown without a fraction |
| Utils.EthereumAddressShape | src/lib/utils.ts:49-51 | `isEthereumAddress` holds exactly for "0x" followed by forty hexadecimal digits of either case |
| Utils.LowerKeepsAddress | src/lib/utils.ts:49-51 | lower-casing an address keeps it an address, since the pattern accepts hex digits of either case |
| Utils.FirstAccountAddress | src/lib/utils.ts:53-56 | the first key of the accounts record, or "" when there are none |
| Utils.FirstAccountAddressIsAKey | src/lib/utils.ts:53-56 | a non-empty result is one of the keys; with non-empty keys the result is "" exactly when there are none |
| Utils.ExplorerBaseUrl | src/lib/utils.ts:70-95 | the result is a tabled URL for the given chain id or Etherscan, and an id absent from the table gives Etherscan |
| Utils.ExplorerTabled | src/lib/utils.ts:72-94 | each of the 19 tabled chain ids resolves to its own URL |
| Utils.ExplorerIdsDistinct | src/lib/utils.ts:72-92 | no chain id appears twice in the table |
| Utils.ExplorerIsHttps | src/lib/utils.ts:70-95 | every explorer base URL starts with "https://" |
| Utils.ExplorerMainnet | src/lib/utils.ts:73 | chain "1" resolves to Etherscan |
| Utils.ChainOrMainnet | src/lib/utils.ts:60 | a missing or empty chain id means "1"; any other is kept |
| Utils.BlockExplorerUrl | src/lib/utils.ts:58-62 | the transaction link is the explorer of the chain (or mainnet) followed by "/tx/" and the hash |
| Utils.AddressExplorerUrl | src/lib/utils.ts:64-68 | the address link is the explorer of the chain (or mainnet) followed by "/address/" and the address |
| Utils.ExplorerLinksDefault | src/lib/utils.ts:58-68 | with no chain id or an empty one, transaction and address links are Etherscan links |
| Utils.ExplorerLinksSuffix | src/lib/utils.ts:58-68 | every transaction link ends with "/tx/" and the hash, every address link with "/address/" and the address |
| TransactionList.Items | metamask-state-log-explorer/src/components/state-log-viewers/transaction-list.tsx:43-51 | an array contributes all its elements, a truthy object exactly its truthy values filtered in key order, anything else nothing |
| TransactionList.ItemsOfObject | metamask-state-log-explorer/src/components/state-log-viewers/transaction-list.tsx:47-49 | an object contributes a subsequence of its values holding each truthy value as often as it occurs and no falsy value |
| TransactionList.HistoryCandidates | metamask-state-log-explorer/src/components/state-log-viewers/transaction-list.tsx:101-103 | history is read only when it is an object (array or record), as its values |
| TransactionList.Transactions | metamask-state-log-explorer/src/components/state-log-viewers/transaction-list.tsx:32-75 | a falsy log gives []; without `metamask` the root then mobile transactions, unsorted |
| TransactionList.TransactionsOrdered | metamask-state-log-explorer/src/components/state-log-viewers/transaction-list.tsx:78-111 | with `metamask` the result is sorted by time descending, a permutation of the gathered list, and stable for equal times |
| TransactionList.TransactionsOfEmptyLog | metamask-state-log-explorer/src/components/state-log-viewers/transaction-list.tsx:32-34 | null, absent and `{}` logs have no transactions |
| TransactionList.AdmitHistoryExtends | metamask-state-log-explorer/src/components/state-log-viewers/transaction-list.tsx:101-108 | history admission keeps the collected list as a prefix and only appends truthy history entries |
| TransactionList.AdmitHistoryFresh | metamask-state-log-explorer/src/components/state-log-viewers/transaction-list.tsx:104 | an admitted entry's id is not `===` to the id of any transaction before it |
| TransactionList.AdmitHistoryCovers | metamask-state-log-explorer/src/components/state-log-viewers/transaction-list.tsx:103-106 | each truthy history entry is in the final list or shares its id with an entry of the final list (the first-wins order is stated by AdmitHistoryFirstWins) |
| TransactionList.AdmitHistoryPrefix | metamask-state-log-explorer/src/components/state-log-viewers/transaction-list.tsx:103-106 | the list after a prefix of the history is a prefix of the final list: entries are only ever pushed, in history order |
| TransactionList.AdmitHistoryFirstWins | metamask-state-log-explorer/src/components/state-log-viewers/transaction-list.tsx:103-106 | a truthy history entry is pushed, right after what the entries before it produced, exactly when no transaction collected before it has an `===` id, so of two history entries with one id the later one is never pushed |
| TransactionList.IdTakenGrows | metamask-state-log-explorer/src/components/state-log-viewers/transaction-list.tsx:104 | an id already taken stays taken as the list grows |
| TransactionList.AppendItems | metamask-state-log-explorer/src/components/state-log-viewers/transaction-list.tsx:80-86 | the push loop appends exactly the items of a source field |
| TransactionList.SomeHasId | metamask-state-log-explorer/src/components/state-log-viewers/transaction-list.tsx:104 | the `some` loop answers exactly whether an id is taken |
| TransactionList.AdmitHistoryEntries | metamask-state-log-explorer/src/components/state-log-viewers/transaction-list.tsx:101-108 | the history loop computes the admission fold |
| TransactionList.ExtractTransactions | metamask-state-log-explorer/src/components/state-log-viewers/transaction-list.tsx:29-115 | the imperative extractor returns exactly `Transactions(doc)` |
| TransactionList.ExtractRootTransactions | metamask-state-log-explorer/src/components/state-log-viewers/transaction-list.tsx:39-75 | the branch without `metamask` returns the root then mobile transactions |
| TransactionList.GatherTransactions | metamask-state-log-explorer/src/components/state-log-viewers/transaction-list.tsx:78-108 | the `metamask` branch gathers transactions, list items, then admitted history |
| TransactionList.FilterTransactions | metamask-state-log-explorer/src/components/state-log-viewers/transaction-list.tsx:117-127 | an empty term keeps the list; otherwise the result is the subsequence of transactions whose hash, from, to or origin contains the term, ignoring case |
| TransactionList.SearchIgnoresCase | metamask-state-log-explorer/src/components/state-log-viewers/transaction-list.tsx:119 | searching with a lower-cased term gives the same result |
| TransactionList.SearchFindsHash | metamask-state-log-explorer/src/components/state-log-viewers/transaction-list.tsx:122 | a transaction whose hash is the search term is found |
| ApprovalsList.FromPending | metamask-state-log-explorer/src/components/state-log-viewers/approvals-list.tsx:118-124 | a pending approval takes its key as id; one from the mobile controller is marked mobile, any other keeps its own isMobile field |
| ApprovalsList.PendingApprovals | metamask-state-log-explorer/src/components/state-log-viewers/approvals-list.tsx:116-126 | at most one approval per pending entry |
| ApprovalsList.PendingApprovalsExact | metamask-state-log-explorer/src/components/state-log-viewers/approvals-list.tsx:116-126 | one approval per truthy pending entry, in entry order, each the entry spread with its id |
| ApprovalsList.PendingApprovalsMembers | metamask-state-log-explorer/src/components/state-log-viewers/approvals-list.tsx:116-126 | every truthy pending entry yields its approval, and every approval comes from a truthy pending entry |
| ApprovalsList.FromPermission | metamask-state-log-explorer/src/components/state-log-viewers/approvals-list.tsx:153-163 | id subject-permission, origin the subject's truthy origin or the subject, type the truthy parent capability or the permission, time the truthy date or the current time, request data with that permission and caveats or [], marked mobile |
| ApprovalsList.PermissionApprovals | metamask-state-log-explorer/src/components/state-log-viewers/approvals-list.tsx:151-165 | at most one approval per permission of a subject |
| ApprovalsList.PermissionApprovalsExact | metamask-state-log-explorer/src/components/state-log-viewers/approvals-list.tsx:151-165 | one approval per permission with truthy details, in permission order, each built from its subject and permission |
| ApprovalsList.PermissionApprovalsMembers | metamask-state-log-explorer/src/components/state-log-viewers/approvals-list.tsx:151-165 | every permission with truthy details yields its approval, and every approval comes from such a permission |
| ApprovalsList.FromHistory | metamask-state-log-explorer/src/components/state-log-viewers/approvals-list.tsx:176-185 | id origin-permission, origin and type as keyed, time the last approval, not mobile; requestData names the permission and carries the accounts, or [] when they are falsy |
| ApprovalsList.OriginHistoryApprovals | metamask-state-log-explorer/src/components/state-log-viewers/approvals-list.tsx:174-187 | at most one approval per permission of an origin |
| ApprovalsList.OriginHistoryApprovalsExact | metamask-state-log-explorer/src/components/state-log-viewers/approvals-list.tsx:174-187 | one approval per permission with a truthy `lastApproved`, in permission order, each built from the origin and permission |
| ApprovalsList.OriginHistoryApprovalsMembers | metamask-state-log-explorer/src/components/state-log-viewers/approvals-list.tsx:174-187 | a permission with a truthy `lastApproved` yields its approval, and every approval comes from such a permission |
| ApprovalsList.OriginHistoryComplete | metamask-state-log-explorer/src/components/state-log-viewers/approvals-list.tsx:176-178 | a permission with a truthy `lastApproved` yields its approval |
| ApprovalsList.OriginHistorySound | metamask-state-log-explorer/src/components/state-log-viewers/approvals-list.tsx:176-178 | every history approval comes from a permission with a truthy `lastApproved` |
| ApprovalsList.Approvals | metamask-state-log-explorer/src/components/state-log-viewers/approvals-list.tsx:45-113 | a falsy log gives []; without `metamask` the root pending approvals then mobile approvals, unsorted |
| ApprovalsList.ApprovalsOrdered | metamask-state-log-explorer/src/components/state-log-viewers/approvals-list.tsx:115-192 | with `metamask` the result is sorted by time descending, a permutation of the gathered list, and stable |
| ApprovalsList.ApprovalsOfEmptyLog | metamask-state-log-explorer/src/components/state-log-viewers/approvals-list.tsx:48-50 | null, absent and `{}` logs have no approvals |
| ApprovalsList.SubjectApprovalsShape | metamask-state-log-explorer/src/components/state-log-viewers/approvals-list.tsx:149-167 | every fan-out approval is mobile, has a type, carries it as its permission, and is keyed by a subject |
| ApprovalsList.PermissionApprovalsShape | metamask-state-log-explorer/src/components/state-log-viewers/approvals-list.tsx:151-165 | every approval of one subject is mobile, has a type equal to its request permission, and is keyed subject-permission |
| ApprovalsList.HistoryApprovalsNotMobile | metamask-state-log-explorer/src/components/state-log-viewers/approvals-list.tsx:171-189 | no permission-history approval is mobile |
| ApprovalsList.OriginHistoryNotMobile | metamask-state-log-explorer/src/components/state-log-viewers/approvals-list.tsx:174-187 | no approval of one origin's history is mobile |
| ApprovalsList.MobilePendingMarked | metamask-state-log-explorer/src/components/state-log-viewers/approvals-list.tsx:133-141 | every mobile pending approval is marked mobile |
| ApprovalsList.MobileCount | metamask-state-log-explorer/src/components/state-log-viewers/approvals-list.tsx:256 | the mobile count never exceeds the number of approvals |
| ApprovalsList.StandardCount | metamask-state-log-explorer/src/components/state-log-viewers/approvals-list.tsx:257 | mobile count plus standard count is the number of approvals |
| ApprovalsList.MobileCountAll | metamask-state-log-explorer/src/components/state-log-viewers/approvals-list.tsx:256 | when all approvals are mobile, all count |
| ApprovalsList.MobileCountNone | metamask-state-log-explorer/src/components/state-log-viewers/approvals-list.tsx:256 | when none is mobile, the count is 0 |
| ApprovalsList.MobileCountOfExtensionLog | metamask-state-log-explorer/src/components/state-log-viewers/approvals-list.tsx:116-192 | for an extension log, the mobile count is the marked extension pending approvals plus every mobile-controller and fan-out approval |
| ApprovalsList.FilterApprovals | metamask-state-log-explorer/src/components/state-log-viewers/approvals-list.tsx:195-203 | an empty term keeps all; otherwise exactly the approvals whose origin or type contains the term, ignoring case, in order |
| ApprovalsList.ApprovalRisk | metamask-state-log-explorer/src/components/state-log-viewers/approvals-list.tsx:227-253 | medium exactly for the three medium patterns; high exactly for the three high patterns when no medium one occurs; low otherwise |
| ApprovalsList.ApprovalRiskUntyped | metamask-state-log-explorer/src/components/state-log-viewers/approvals-list.tsx:226-251 | an approval whose type is undefined or null is low risk |
| ApprovalsList.ApprovalRiskTypedSignature | metamask-state-log-explorer/src/components/state-log-viewers/approvals-list.tsx:239 | "eth_signTypedData_v4" is high risk, through its "eth_sign" prefix |
| ApprovalsList.TypedSignatureNotMedium | metamask-state-log-explorer/src/components/state-log-viewers/approvals-list.tsx:229-231 | "eth_signTypedData_v4" matches none of the medium patterns |
| ApprovalsList.ApprovalRiskMediumFirst | metamask-state-log-explorer/src/components/state-log-viewers/approvals-list.tsx:229-241 | a type matching both a medium and a high pattern is medium, because medium is tested first |
| ApprovalsList.CollectPending | metamask-state-log-explorer/src/components/state-log-viewers/approvals-list.tsx:118-125 | the pending loop appends exactly the pending approvals |
| ApprovalsList.CollectPermissions | metamask-state-log-explorer/src/components/state-log-viewers/approvals-list.tsx:149-167 | the loop over the subjects appends exactly the fan-out of every subject, in order |
| ApprovalsList.CollectGrants | metamask-state-log-explorer/src/components/state-log-viewers/approvals-list.tsx:150-165 | the loop over one subject's permissions appends one record per truthy permission, in order |
| ApprovalsList.CollectHistory | metamask-state-log-explorer/src/components/state-log-viewers/approvals-list.tsx:173-188 | the loop over the history's origins appends exactly the history approvals, in order |
| ApprovalsList.CollectOriginHistory | metamask-state-log-explorer/src/components/state-log-viewers/approvals-list.tsx:174-186 | the loop over one origin's permissions appends one record per permission with a truthy `lastApproved`, in order |
| ApprovalsList.CollectShared | metamask-state-log-explorer/src/components/state-log-viewers/approvals-list.tsx:58-110 | the pending, mobile and fan-out loops produce the shared part of both branches |
| ApprovalsList.CollectMobile | metamask-state-log-explorer/src/components/state-log-viewers/approvals-list.tsx:129-168 | the mobile loops append the mobile approvals |
| ApprovalsList.ExtractApprovals | metamask-state-log-explorer/src/components/state-log-viewers/approvals-list.tsx:45-193 | the imperative extractor returns exactly `Approvals(doc, now)` |
| AccountsList.NameOf | metamask-state-log-explorer/src/components/state-log-viewers/accounts-list.tsx:41-47 | the name is the identity's name when the identity is truthy, else the address |
| AccountsList.ExtensionRows | metamask-state-log-explorer/src/components/state-log-viewers/accounts-list.tsx:40-54 | one record per extension account, in key order, with the named identity and the mapped balance |
| AccountsList.Accounts | metamask-state-log-explorer/src/components/state-log-viewers/accounts-list.tsx:27-29 | a falsy log has no accounts |
| AccountsList.AccountsLayout | metamask-state-log-explorer/src/components/state-log-viewers/accounts-list.tsx:37-82 | extension records come first and are all kept; each mobile address ends up listed up to case; the length lies between the extension count and that plus the mobile count |
| AccountsList.AccountsOfEmptyLog | metamask-state-log-explorer/src/components/state-log-viewers/accounts-list.tsx:27-29 | null, absent and `{}` logs have no accounts |
| AccountsList.AddressTakenGrows | metamask-state-log-explorer/src/components/state-log-viewers/accounts-list.tsx:64 | an address taken stays taken as the list grows |
| AccountsList.MobileRowsExtends | metamask-state-log-explorer/src/components/state-log-viewers/accounts-list.tsx:62-79 | the mobile loop keeps the list as a prefix and appends only addresses of mobile entries |
| AccountsList.MobileRowsCover | metamask-state-log-explorer/src/components/state-log-viewers/accounts-list.tsx:62-79 | after the loop every mobile address is present, ignoring case |
| AccountsList.MobileRowsFresh | metamask-state-log-explorer/src/components/state-log-viewers/accounts-list.tsx:64 | an appended address differs, ignoring case, from every address before it |
| AccountsList.MobileRow | metamask-state-log-explorer/src/components/state-log-viewers/accounts-list.tsx:65-77 | a mobile row carries the entry's address and `accountInfo.balance` |
| AccountsList.MobileRowsStep | metamask-state-log-explorer/src/components/state-log-viewers/accounts-list.tsx:62-79 | entry `i` is appended, as the row of its address, name and balance, exactly when its address is not yet listed, ignoring case, after the entries before it; otherwise the list is unchanged |
| AccountsList.MobileRowsAppended | metamask-state-log-explorer/src/components/state-log-viewers/accounts-list.tsx:62-79 | every appended row is the row of a mobile entry whose address the extension list lacks and which is the first mobile entry with that address ignoring case: the first spelling wins |
| AccountsList.MobileRowsDistinct | metamask-state-log-explorer/src/components/state-log-viewers/accounts-list.tsx:62-79 | a list without case-insensitive duplicates stays without them |
| AccountsList.SomeHasAddress | metamask-state-log-explorer/src/components/state-log-viewers/accounts-list.tsx:64 | the `some` loop answers exactly whether an address is taken ignoring case |
| AccountsList.AppendMobile | metamask-state-log-explorer/src/components/state-log-viewers/accounts-list.tsx:62-79 | the mobile loop computes the mobile fold |
| AccountsList.ExtractAccounts | metamask-state-log-explorer/src/components/state-log-viewers/accounts-list.tsx:26-83 | the imperative extractor returns exactly `Accounts(doc)` |
| OriginsList.Step | metamask-state-log-explorer/src/components/state-log-viewers/origins-list.tsx:46-59 | one use: transactions and approvals add 1 to the count and set their flag; a visit sets isVisited and raises a zero count to 1, leaving lastUsed alone |
| OriginsList.Find | metamask-state-log-explorer/src/components/state-log-viewers/origins-list.tsx:46 | the position of the origin in the map, with no earlier record for it |
| OriginsList.Record | metamask-state-log-explorer/src/components/state-log-viewers/origins-list.tsx:59 | recording a use adds at most one record |
| OriginsList.ApplyTracks | metamask-state-log-explorer/src/components/state-log-viewers/origins-list.tsx:34-103 | the map has one record per distinct origin, each equal to the fold of that origin's uses, and lists exactly the origins some use names |
| OriginsList.FirstUse | metamask-state-log-explorer/src/components/state-log-viewers/origins-list.tsx:34-103 | the position of the first use naming an origin: it names the origin, no earlier use does, and it exists exactly when some use names the origin |
| OriginsList.FirstUseSnoc | metamask-state-log-explorer/src/components/state-log-viewers/origins-list.tsx:46-59 | a further use keeps an already named origin's first use and becomes the first use of a new one |
| OriginsList.ApplyOrder | metamask-state-log-explorer/src/components/state-log-viewers/origins-list.tsx:34-103 | the map lists origins in the order of their first use, as a JavaScript `Map` keeps insertion order |
| OriginsList.RecordOrder | metamask-state-log-explorer/src/components/state-log-viewers/origins-list.tsx:46-59 | recording one use keeps the map in first-use order |
| OriginsList.UsageOfUnmentioned | metamask-state-log-explorer/src/components/state-log-viewers/origins-list.tsx:46-51 | an origin no use names keeps the empty record |
| OriginsList.UsageFromAppend | metamask-state-log-explorer/src/components/state-log-viewers/origins-list.tsx:43-103 | folding uses in two parts is folding them at once |
| OriginsList.UsageFlag | metamask-state-log-explorer/src/components/state-log-viewers/origins-list.tsx:53-98 | each flag is set exactly when some use of its kind names the origin |
| OriginsList.CountWithoutVisits | metamask-state-log-explorer/src/components/state-log-viewers/origins-list.tsx:53-75 | transactions and approvals alone make the count their number |
| OriginsList.CountOfVisits | metamask-state-log-explorer/src/components/state-log-viewers/origins-list.tsx:98 | visits alone raise a zero count to 1 and change no other count |
| OriginsList.LastUsedIsLatest | metamask-state-log-explorer/src/components/state-log-viewers/origins-list.tsx:55-79 | with non-negative times, lastUsed ends as the largest contributing time, 0 when none |
| OriginsList.ApprovalTime | metamask-state-log-explorer/src/components/state-log-viewers/origins-list.tsx:77-78 | an approval's time is present exactly when it is a number |
| OriginsList.TxEventsShape | metamask-state-log-explorer/src/components/state-log-viewers/origins-list.tsx:43-45 | the transactions loop only produces transaction uses |
| OriginsList.ApprovalEventsShape | metamask-state-log-explorer/src/components/state-log-viewers/origins-list.tsx:65-67 | the approvals loop only produces approval uses |
| OriginsList.VisitEventsShape | metamask-state-log-explorer/src/components/state-log-viewers/origins-list.tsx:87-89 | the hostnames loop only produces visits |
| OriginsList.Origins | metamask-state-log-explorer/src/components/state-log-viewers/origins-list.tsx:30-32 | no `metamask` gives no origins |
| OriginsList.OriginsRows | metamask-state-log-explorer/src/components/state-log-viewers/origins-list.tsx:34-110 | the rows are sorted by lastUsed descending, one per distinct origin, each the fold of its uses, exactly the origins some use names, and rows with equal lastUsed appear in the order their origins were first used |
| OriginsList.TiesInFirstUseOrder | metamask-state-log-explorer/src/components/state-log-viewers/origins-list.tsx:106-109 | the stable sort leaves rows with equal lastUsed in the map's order, which is the order of first use |
| OriginsList.OriginFlags | metamask-state-log-explorer/src/components/state-log-viewers/origins-list.tsx:53-98 | hasTransactions, hasApprovals and isVisited each hold exactly when a use of that kind names the origin |
| OriginsList.OriginCount | metamask-state-log-explorer/src/components/state-log-viewers/origins-list.tsx:53-98 | the count is the number of transaction and approval uses, or 1 when there are none and the origin was visited |
| OriginsList.OriginRisk | metamask-state-log-explorer/src/components/state-log-viewers/origins-list.tsx:133-146 | high exactly with approvals and no transactions, medium with both, low without approvals |
| OriginsList.OriginRiskFromLog | metamask-state-log-explorer/src/components/state-log-viewers/origins-list.tsx:133-146 | a listed origin is high risk exactly when the log has approvals for it but no transactions, and low exactly when it has no approvals |
| OriginsList.FilterOrigins | metamask-state-log-explorer/src/components/state-log-viewers/origins-list.tsx:112-119 | an empty term keeps all; otherwise exactly the origins whose url contains the term, ignoring case, in order |
| OriginsList.AggregateOrigins | metamask-state-log-explorer/src/components/state-log-viewers/origins-list.tsx:42-103 | the three loops build exactly the folded map |
| OriginsList.RecordTransactions | metamask-state-log-explorer/src/components/state-log-viewers/origins-list.tsx:43-62 | the transactions loop applies exactly its uses |
| OriginsList.RecordApprovals | metamask-state-log-explorer/src/components/state-log-viewers/origins-list.tsx:65-84 | the approvals loop applies exactly its uses |
| OriginsList.RecordVisits | metamask-state-log-explorer/src/components/state-log-viewers/origins-list.tsx:87-103 | the hostnames loop applies exactly its visits |
| OriginsList.ApplyAppend | metamask-state-log-explorer/src/components/state-log-viewers/origins-list.tsx:43-103 | applying uses in two parts is applying them at once |
| OriginsList.ExtractOrigins | metamask-state-log-explorer/src/components/state-log-viewers/origins-list.tsx:29-110 | the imperative extractor returns exactly `Origins(doc)` |
| VariableViewer.Probe | src/components/state-log-viewers/variable-viewer.tsx:31-53 | the first defined value among top level, the preferences controller, the background state and `metamask`, each place taken only when all earlier ones are undefined; absent only when all four are |
| VariableViewer.VariableValue | src/components/state-log-viewers/variable-viewer.tsx:31-53 | the probed value, or "Not available" when nothing is defined |
| VariableViewer.TopLevelWins | src/components/state-log-viewers/variable-viewer.tsx:33-35 | a value at the top level, even null, shadows every other place |
| VariableViewer.WhenDefined | src/components/state-log-viewers/variable-viewer.tsx:112-150 | a controller's defined value replaces the probe only when the probe was "Not available" |
| VariableViewer.WhenTruthy | src/components/state-log-viewers/variable-viewer.tsx:153-161 | the first truthy of two fallbacks replaces the probe only when the probe was "Not available" (submitted time here, the version at lines 94-103) |
| VariableViewer.NoDigitsNotDateLike | src/components/state-log-viewers/variable-viewer.tsx:67 | a string without digits is never taken for a date |
| VariableViewer.FormatValue | src/components/state-log-viewers/variable-viewer.tsx:56-91 | undefined and null read "Not available", booleans "Yes"/"No", non-date strings themselves, numbers up to 10^9 their decimal rendering |
| VariableViewer.AppType | src/components/state-log-viewers/variable-viewer.tsx:105-109 | "Mobile App" exactly when the log has an engine background state, else "Browser Extension" |
| VariableViewer.Variables | src/components/state-log-viewers/variable-viewer.tsx:163-209 | a falsy log gives no rows; otherwise nine rows with the fixed ids and captions in order, each setting showing the formatted value of its setting with fallbacks applied, the last the app type |
| VariableViewer.ControllerOf | src/components/state-log-viewers/variable-viewer.tsx:112-150 | the seed-phrase setting falls back to BackupController, the two security settings to SecurityController, the three syncing settings to SyncController |
| VariableViewer.SettingValue | src/components/state-log-viewers/variable-viewer.tsx:112-161 | every setting shows its probe unless that reads "Not available"; then a controller-backed setting shows its controller's defined value, else "Not available", and the version and submitted time follow their own chains (Version, SubmittedTime) |
| VariableViewer.Version | src/components/state-log-viewers/variable-viewer.tsx:93-103 | the probe, else a truthy `PreferencesController.metamask.version`, else a truthy `AppStateController.versions.metamask`, else "Not available" |
| VariableViewer.SubmittedTime | src/components/state-log-viewers/variable-viewer.tsx:152-161 | the probe, else a truthy `AppStateController.lastActiveTime`, else a truthy `PreferencesController.lastUserActivityTime`, else "Not available" |
| VariableViewer.EmptyLogVariables | src/components/state-log-viewers/variable-viewer.tsx:31-209 | for `{}` every setting reads "Not available" and the app type is "Browser Extension" |
| MobileInfo.VisitedDapps | src/components/state-log-viewers/mobile-info.tsx:46 | the joined hostnames exactly when the field is an array whose join is a non-empty string, else "None" |
| MobileInfo.FirstOrigin | src/components/state-log-viewers/mobile-info.tsx:233-245 | a non-empty array gives element 0's origin, an object with a non-empty first key the origin under it; an empty array, `{}` or an object whose first key is "" gives nothing |
| MobileInfo.MobileOriginFirst | src/components/state-log-viewers/mobile-info.tsx:231-236 | a non-empty mobile transaction array decides the origin whatever the extension holds |
| MobileInfo.DesktopOriginFallback | src/components/state-log-viewers/mobile-info.tsx:232-253 | whenever the mobile collection yields no first transaction (falsy, an empty array, `{}`, or a first key ""), the extension's first array element or first-keyed value gives the origin, and a falsy extension collection gives none |
| MobileInfo.NoTransactionsNoOrigin | src/components/state-log-viewers/mobile-info.tsx:230-262 | with no transaction collection the origin is undefined |
| MobileInfo.BaseVariables | src/components/state-log-viewers/mobile-info.tsx:36-85 | eight entries in fixed order; Submitted Time read from the top level as a date, Visited Dapps and TX Origin as computed, then the five flags with their fixed ids and captions, read from the top level as booleans |
| MobileInfo.NetworkVariables | src/components/state-log-viewers/mobile-info.tsx:90-119 | at most three network entries, each only with a truthy value |
| MobileInfo.NetworkVariablesMembers | src/components/state-log-viewers/mobile-info.tsx:93-118 | an entry is a network entry exactly when it is the type, chain id or name entry and its field is truthy |
| MobileInfo.NetworkRowsShown | src/components/state-log-viewers/mobile-info.tsx:90-119 | in a mobile log with a network controller, each of the three network entries is pushed exactly when its field is truthy and is then shown |
| MobileInfo.NetworkPartShown | src/components/state-log-viewers/mobile-info.tsx:90-119 | every pushed network entry of a mobile log is shown |
| MobileInfo.FlagVariable | src/components/state-log-viewers/mobile-info.tsx:126-131 | a flag entry has id "featureFlag_" + key, caption "Feature Flag: " + key, and the flag's boolean |
| MobileInfo.FlagVariables | src/components/state-log-viewers/mobile-info.tsx:122-134 | at most one entry per flag, each a boolean |
| MobileInfo.FlagVariablesComplete | src/components/state-log-viewers/mobile-info.tsx:124-133 | a flag's entry is listed exactly when the flag is a boolean in the record |
| MobileInfo.CountVariable | src/components/state-log-viewers/mobile-info.tsx:137-157 | the account and transaction counts are the number of keys (the length of an array) |
| MobileInfo.MobileVariables | src/components/state-log-viewers/mobile-info.tsx:160 | a falsy log gives nothing; every shown entry is defined |
| MobileInfo.EngineVariablesDefined | src/components/state-log-viewers/mobile-info.tsx:88-157 | every pushed engine entry has a defined value |
| MobileInfo.MobileVariablesSplit | src/components/state-log-viewers/mobile-info.tsx:36-160 | the card shows the defined base entries in order followed by all engine entries |
| MobileInfo.VisitedDappsShown | src/components/state-log-viewers/mobile-info.tsx:43-48 | the Visited Dapps entry is always shown |
| MobileInfo.FeatureFlagShown | src/components/state-log-viewers/mobile-info.tsx:122-134 | in a mobile log every boolean feature flag is shown |
| MobileInfo.AccountCountShown | src/components/state-log-viewers/mobile-info.tsx:137-146 | in a mobile log with accounts, their key count is shown |
| MobileInfo.TransactionCountShown | src/components/state-log-viewers/mobile-info.tsx:148-157 | in a mobile log with a transaction collection, its length or key count is shown |
| MobileInfo.FormatValue | src/components/state-log-viewers/mobile-info.tsx:175-186 | undefined and null read "Not available"; booleans by truthiness; other non-date types as `String(value)` |
| MobileInfo.EngineMeansMobile | src/components/state-log-viewers/mobile-info.tsx:189 | a log with an engine background state is taken for a mobile log |
| MobileInfo.EmptyLogMobileInfo | src/components/state-log-viewers/mobile-info.tsx:31-189 | for `{}` only "Visited Dapps: None" is shown and the log is not taken for a mobile one |
| MobileInfo.PushFlags | src/components/state-log-viewers/mobile-info.tsx:124-133 | the flag loop appends exactly the boolean flags' entries |
| MobileInfo.CollectEngineVariables | src/components/state-log-viewers/mobile-info.tsx:88-157 | the conditional pushes produce exactly the engine entries |
| MobileInfo.CollectMobileVariables | src/components/state-log-viewers/mobile-info.tsx:31-161 | the imperative builder returns exactly `MobileVariables(doc)` |
| Risk.Label | metamask-state-log-explorer/src/components/state-log-viewers/approvals-list.tsx:232-251 | the three risk levels read "low", "medium" and "high" |

## Left out

- Rendering: all JSX, React state, icons, styling and logging. The file uploader's reading and `JSON.parse` are left out too: the model starts from the parsed value.
- Locale rendering: `toLocaleString` of dates and timestamps, and `JSON.stringify`, are opaque functions passed in (`Utils.Renderers`). Only their call sites are modelled.
- The clock: `Date.now()` in the permission fan-out is the parameter `now`.
- Numbers are integers; floating point, NaN and `Infinity` are not modelled. A time that is missing or not a number sorts as 0, and an origin's `lastUsed` reads it as 0 as well. JavaScript instead coerces numeric strings and booleans to numbers in `(b.time || 0) - (a.time || 0)`, in `b.time - a.time` and in `tx.time > existing.lastUsed`, so such a time takes part in the sort and the comparison there; the model does not follow that coercion. JavaScript's comparator `b.time - a.time` yields NaN for a missing approval time, which makes the library's order unspecified.
- `Object.entries` puts integer-like keys first. The model keeps members in insertion order.
- Lower-casing covers ASCII letters only.
- Json.Lookup: an object with a repeated key is not excluded. `JSON.parse` keeps the last binding, while `Json.Lookup` takes the first and `Json.Entries` lists both. The two readings agree on objects without repeated keys (`Json.LookupDistinct`), which is every object `JSON.stringify` writes.
- TypeErrors are not modelled. The source throws them on property reads of null elements (a null transaction in the sort, `accountInfo.balance` of a null account, `Object.entries(null)` in the permission history) on `join` of a non-array `visitedDappsByHostname`, on `type.includes` in the approval risk rating when the type is a number, a boolean or an object, and on `toLowerCase` in the search filters when a transaction's hash, from, to or origin, an approval's origin or type, or an origin's url is defined but not a string. The model reads such fields as absent, a non-array list of visited dapps as "None", such a type as matching no pattern, so the approval rates low, and such a searched field as not matching (`Json.StrIncludes`).
- Property reads on arrays and strings, such as `length` or an index, are not modelled. Neither are inherited prototype keys: a read from anything but an object yields `undefined`.
- The origins `Map` compares keys with SameValueZero, so two object or array origins are distinct keys. The model compares origins structurally; this differs only for non-string origins.
- `BigInt` also accepts hex, signs and whitespace. `Utils.ParseWei` accepts decimal digit strings only (the empty string is 0, as for `BigInt("")`).
- OriginsList.LastUsedIsLatest: stated for non-negative times only. While lastUsed is 0 (falsy), the source and `OriginsList.Step` take the next time whatever it is, a negative one included, whereas `MaxTime` never goes below 0; with a negative time the two therefore differ.
- `cn` (class-name merging) is not part of this model.

## Findings

| source | as written | input that shows it | evidently intended | confidence | as-written member | corrected member |
|---|---|---|---|---|---|---|
| src/lib/utils.ts:32-40 | the quotient is a `BigInt`, whose decimal string never contains ".", so the six-decimal branch is dead and every fraction of an ether is dropped | "1500000000000000000" is shown as "1" | whole ether, then up to six decimal places ("1.5") | high, not executed | Utils.FormatEtherDropsFraction | Utils.FormatEtherDecimalOneAndAHalf |
