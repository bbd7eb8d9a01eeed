# Multi-chain token indexer: the cleaning pipeline and query state, in Dafny

This project models the logic inside the single React component of a browser
front-end that shows the fungible-token balances of an Ethereum address and of a
Solana address. Three pieces are modelled:

- **Ethereum cleaning** (`EvmTokens`): the balance records returned for an address
  are matched, position by position, with their token metadata, and a record is
  shown only if its metadata has a symbol and non-zero decimals, the symbol matches
  none of `http`, `www`, `claim`, `visit`, `verify` (ignoring case), `$` or `#`, the
  symbol has 2 to 6 characters, and the raw balance converts to a positive amount.
  The spam regular expression is modelled as the search the regex engine performs
  (`IsSpam`) and proved equal to its declarative meaning (`MentionsSpamWord`).
- **Solana cleaning** (`SolanaTokens`): a token account is shown when its amount is
  positive, with the first four characters of its mint followed by `...` as symbol
  and no logo.
- **Component state** (`Indexer.TokenIndexer`): a class whose fields are the
  component's `useState` slots and whose methods are its handlers: the two wallets'
  connect and disconnect handlers and listeners, the address input, the two
  fetchers and `handleQuery`. The invariant `Valid()` (a remembered address implies
  a connected wallet; every listed holding passed its chain's filter) is kept by
  every method.

`Filtering` models `map(...).filter(Boolean)`: `Compact` is the filtered list and
`KeptIndices` the input positions it came from, proved strictly increasing and
complete, which is what makes both cleaners order-preserving selections of their
input. `Text` holds the character folding of a JavaScript regular expression with
the `i` flag and no `u` flag: that flag never lets a non-ASCII character match an
ASCII one, so against the all-ASCII spam pattern only `A`-`Z` and `a`-`z` fold.

Balances are exact decimals `Amount(units, scale)`. `> 0` on the JavaScript number
is `units > 0`: with at most 256 decimals a positive integer scaled down stays
above the smallest positive double, so `parseFloat` never changes the sign.

The filter drops a record whose `decimals` is `0`, not only one where it is missing:
line 122 tests truthiness. The model follows the code.

## Model

| member | source | states |
|---|---|---|
| `Filtering.Compact` | src/App.jsx:145 | `filter(Boolean)` keeps exactly the non-null entries: an element is in the output iff it is a value in the input, and the output is no longer than the input |
| `Filtering.KeptIndices` | src/App.jsx:145 | one recorded input position per output element, each inside the input |
| `Filtering.KeptIndicesLocate` | src/App.jsx:145 | the k-th output element is the value held at the k-th recorded position |
| `Filtering.KeptIndicesIncreasing` | src/App.jsx:145 | recorded positions strictly increase: the filter keeps input order |
| `Filtering.KeptIndicesComplete` | src/App.jsx:145 | a position is recorded iff the entry there is a value (nothing non-null is lost) |
| `Filtering.CompactAppend` | src/App.jsx:145 | filtering a concatenation is the concatenation of the filtered parts |
| `Filtering.CompactSkipsNone` | src/App.jsx:145 | a null entry contributes nothing: removing it leaves the output unchanged |
| `Text.FoldMatches` | src/App.jsx:124 | under the `i` flag a character matches a pattern character that is not an upper-case letter exactly when it is that character or, for a lower-case letter, its upper-case partner |
| `Text.Take` | src/App.jsx:171 | `slice(0, n)`: a prefix of length `min(n, |s|)` |
| `EvmTokens.AlternativeAtMeans` | src/App.jsx:124 | trying the alternatives in turn at a position succeeds iff one of them occurs there |
| `EvmTokens.SearchFromMeans` | src/App.jsx:124 | scanning from position i succeeds iff some alternative occurs at some position at or after i |
| `EvmTokens.IsSpamMeans` | src/App.jsx:124 | the spam test is true iff the symbol contains `http`, `www`, `claim`, `visit`, `verify` (any case), `$` or `#` |
| `EvmTokens.SpamIgnoresCase` | src/App.jsx:124 | two symbols equal up to ASCII case are both spam or both not |
| `EvmTokens.CleanRecord` | src/App.jsx:120-144 | a produced holding has a 2-6 character non-spam symbol and a positive balance, and is built from that record's symbol, balance scaled by its decimals, and logo; an unparseable balance yields null |
| `EvmTokens.CleanRecordKeptIff` | src/App.jsx:122-137 | a record yields a holding iff metadata exists, symbol is non-empty, decimals is non-zero, symbol is not spam and has length 2..6, balance parses, decimals are within the library's range, and the raw balance is positive |
| `EvmTokens.CleanTokens` | src/App.jsx:119-145 | the cleaned list is no longer than the balance list and every holding in it satisfies the display rule (symbol length, no spam word, positive balance) |
| `EvmTokens.CleanTokensProvenance` | src/App.jsx:119-145 | the cleaned list is an order-preserving selection: holding k comes from record `idx[k]` and from the metadata at that same index |
| `EvmTokens.CleanTokensKeeps` | src/App.jsx:119-145 | record i appears in the output iff it meets the filter rule |
| `EvmTokens.DroppedRecordIsIsolated` | src/App.jsx:128-137 | a dropped record (e.g. an unconvertible balance) leaves the output equal to the output without that record and its metadata |
| `SolanaTokens.ShortSymbol` | src/App.jsx:171 | the symbol is the mint's first four characters (all of it if shorter) followed by `...` |
| `SolanaTokens.FormatAccount` | src/App.jsx:165-175 | an account yields a holding iff its amount is positive; the holding has no logo and an `...`-terminated symbol |
| `SolanaTokens.FormatAccounts` | src/App.jsx:164-176 | the formatted list is no longer than the account list and every holding has a positive balance, no logo and an `...`-terminated symbol |
| `SolanaTokens.FormatAccountsProvenance` | src/App.jsx:164-176 | order-preserving selection: holding k is account `idx[k]` with its short mint, its amount and a null logo |
| `SolanaTokens.FormatAccountsKeeps` | src/App.jsx:167-168 | account i appears in the output iff its amount is positive |
| `Indexer.Target` | src/App.jsx:185-186 | the target is the typed address when non-empty, otherwise the wallet address; it is empty iff both are |
| `Indexer.TokenIndexer.constructor` | src/App.jsx:19-26 | initial state: empty addresses and lists, not queried, not connected |
| `Indexer.TokenIndexer.OnAccountsChanged` | src/App.jsx:30-38 | a non-empty account list connects with its first account; an empty one disconnects and clears the address |
| `Indexer.TokenIndexer.ConnectMetaMask` | src/App.jsx:53-68 | with a provider and a non-empty account list, connects with the first account; otherwise nothing changes |
| `Indexer.TokenIndexer.DisconnectMetaMask` | src/App.jsx:70-73 | not connected, address empty |
| `Indexer.TokenIndexer.OnPhantomConnect` | src/App.jsx:42-44 | connected, address untouched |
| `Indexer.TokenIndexer.OnPhantomDisconnect` | src/App.jsx:46-49 | not connected, address empty |
| `Indexer.TokenIndexer.ConnectPhantom` | src/App.jsx:75-93 | with a Phantom provider and a non-empty public key, stores the key and connects; otherwise nothing changes |
| `Indexer.TokenIndexer.DisconnectPhantom` | src/App.jsx:95-100 | not connected, address empty |
| `Indexer.TokenIndexer.SetSearchAddress` | src/App.jsx:236 | the typed address is stored |
| `Indexer.TokenIndexer.FetchEthereumTokens` | src/App.jsx:102-151 | an empty address or a failed call leaves the list unchanged; a successful fetch sets it to exactly the cleaned list; nothing else changes |
| `Indexer.TokenIndexer.FetchSolanaTokens` | src/App.jsx:153-182 | an empty address, an unparseable key or a failed call leaves the list unchanged; a successful fetch sets it to exactly the formatted list |
| `Indexer.TokenIndexer.HandleQuery` | src/App.jsx:184-198 | afterwards the query is complete; each chain's list is its cleaned list when it had a target and its fetch succeeded, and empty otherwise; addresses and connection flags are unchanged |

## Left out

- The indexing-service calls (`getTokenBalances`, `getTokenMetadata`) and the Solana RPC connection are network clients: their results are parameters of the fetch methods, `None` standing for a rejected call.
- `new PublicKey(address)` validation is a library call: an address that fails it is the same `None` outcome as a failed RPC call.
- `Utils.formatUnits` and `parseFloat` are library and floating-point conversions: a balance string that does not parse is `None` in `BalanceRecord.tokenBalance`, amounts are exact decimals, and float rounding, `NaN` and `Infinity` are not modelled. The accepted decimals range 0..256 is the library's.
- A thrown exception inside the Solana formatting callback (an account without parsed info) aborts the whole fetch; the model's accounts always carry a mint and an amount, and such a response is the `None` outcome.
- `Promise.all` concurrency: the metadata calls and the two chain fetches are modelled as run one after the other; overlapping queries and React's deferred, batched state updates are not modelled.
- Strings are sequences of `char`, each standing for one UTF-16 code unit; symbol lengths for characters outside the Basic Multilingual Plane are therefore not modelled.
- `provider.disconnect()` inside `disconnectPhantom` is a wallet call; its effect on the component arrives through the `disconnect` listener, modelled as `OnPhantomDisconnect`.
- Listener registration in `useEffect` (only when a provider is injected), the indexing-service configuration (empty key, main network), JSX rendering, `alert`, `console.error` and `toLocaleString` are UI, configuration and I/O.
