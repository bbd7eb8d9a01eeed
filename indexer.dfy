/**
 * The component's state and its event handlers: the two wallet connections, the
 * optional typed address, and the query that fills both token lists. Each handler
 * is a method that updates the fields its state setters update, and nothing else.
 * Network and wallet outcomes are parameters: `None` stands for a rejected call.
 */
module Indexer {
  import opened Wrappers
  import opened Holdings
  import EvmTokens
  import SolanaTokens

  /** `searchAddress || connectedAddress`: the typed address when there is one, else the wallet's. */
  function Target(searchAddress: string, connectedAddress: string): (target: string)
    ensures searchAddress != "" ==> target == searchAddress
    ensures searchAddress == "" ==> target == connectedAddress
    ensures target == "" <==> searchAddress == "" && connectedAddress == ""
  {
    if searchAddress != "" then searchAddress else connectedAddress
  }

  class TokenIndexer {
    var ethAddress: string
    var solAddress: string
    var ethTokens: seq<Holding>
    var solTokens: seq<Holding>
    var hasQueried: bool
    var searchAddress: string
    var ethConnected: bool
    var solConnected: bool

    /**
     * A wallet address is only remembered while that wallet is connected, and every
     * listed holding passed its chain's filter.
     */
    ghost predicate Valid()
      reads this
    {
      && (ethAddress != "" ==> ethConnected)
      && (solAddress != "" ==> solConnected)
      && (forall h :: h in ethTokens ==> EvmTokens.EvmDisplayable(h))
      && (forall h :: h in solTokens ==> SolanaTokens.SolanaDisplayable(h))
    }

    /** The initial `useState` values. */
    constructor ()
      ensures Valid()
      ensures ethAddress == "" && solAddress == "" && searchAddress == ""
      ensures ethTokens == [] && solTokens == [] && !hasQueried
      ensures !ethConnected && !solConnected
    {
      ethAddress, solAddress, searchAddress := "", "", "";
      ethTokens, solTokens, hasQueried := [], [], false;
      ethConnected, solConnected := false, false;
    }

    // -------------------------------------------------------------------------
    // Ethereum wallet

    /** The wallet's `accountsChanged` listener. */
    method OnAccountsChanged(accounts: seq<string>)
      requires Valid()
      modifies this`ethAddress, this`ethConnected
      ensures Valid()
      ensures |accounts| > 0 ==> ethAddress == accounts[0] && ethConnected
      ensures |accounts| == 0 ==> ethAddress == "" && !ethConnected
    {
      if |accounts| > 0 {
        ethAddress := accounts[0];
        ethConnected := true;
      } else {
        ethConnected := false;
        ethAddress := "";
      }
    }

    /**
     * `connectMetaMask`: `providerPresent` is whether a provider is injected, and
     * `accounts` what `eth_requestAccounts` resolved to (`None` if it was rejected).
     */
    method ConnectMetaMask(providerPresent: bool, accounts: Option<seq<string>>)
      requires Valid()
      modifies this`ethAddress, this`ethConnected
      ensures Valid()
      ensures if providerPresent && accounts.Some? && |accounts.value| > 0
              then ethAddress == accounts.value[0] && ethConnected
              else ethAddress == old(ethAddress) && ethConnected == old(ethConnected)
    {
      if !providerPresent {
        return;
      }
      match accounts {
        case None =>
        case Some(list) =>
          if |list| > 0 {
            ethAddress := list[0];
            ethConnected := true;
          }
      }
    }

    /** `disconnectMetaMask` */
    method DisconnectMetaMask()
      requires Valid()
      modifies this`ethAddress, this`ethConnected
      ensures Valid()
      ensures ethAddress == "" && !ethConnected
    {
      ethConnected := false;
      ethAddress := "";
    }

    // -------------------------------------------------------------------------
    // Solana wallet

    /** The wallet's `connect` listener: marks the wallet connected, address untouched. */
    method OnPhantomConnect()
      requires Valid()
      modifies this`solConnected
      ensures Valid()
      ensures solConnected
    {
      solConnected := true;
    }

    /** The wallet's `disconnect` listener. */
    method OnPhantomDisconnect()
      requires Valid()
      modifies this`solAddress, this`solConnected
      ensures Valid()
      ensures solAddress == "" && !solConnected
    {
      solConnected := false;
      solAddress := "";
    }

    /**
     * `connectPhantom`: `providerPresent` is whether a Phantom provider is injected,
     * and `publicKey` the string form of the key `connect()` resolved with (`None`
     * if the call was rejected or returned no key).
     */
    method ConnectPhantom(providerPresent: bool, publicKey: Option<string>)
      requires Valid()
      modifies this`solAddress, this`solConnected
      ensures Valid()
      ensures if providerPresent && publicKey.Some? && publicKey.value != ""
              then solAddress == publicKey.value && solConnected
              else solAddress == old(solAddress) && solConnected == old(solConnected)
    {
      if !providerPresent {
        return;
      }
      if publicKey.Some? && publicKey.value != "" {
        solAddress := publicKey.value;
        solConnected := true;
      }
    }

    /** `disconnectPhantom` */
    method DisconnectPhantom()
      requires Valid()
      modifies this`solAddress, this`solConnected
      ensures Valid()
      ensures solAddress == "" && !solConnected
    {
      solConnected := false;
      solAddress := "";
    }

    /** The address input's `onChange`. */
    method SetSearchAddress(text: string)
      requires Valid()
      modifies this`searchAddress
      ensures Valid()
      ensures searchAddress == text
    {
      searchAddress := text;
    }

    // -------------------------------------------------------------------------
    // Fetching

    /**
     * `fetchEthereumTokens(address)`: `response` is what the balance call and the
     * metadata calls delivered, `None` if any of them was rejected. The list is
     * assigned only on success; an empty address or a failure leaves it as it was.
     */
    method FetchEthereumTokens(address: string, response: Option<EvmTokens.EvmResponse>)
      requires Valid()
      modifies this`ethTokens
      ensures Valid()
      ensures address != "" && response.Some? ==>
        ethTokens == EvmTokens.CleanTokens(response.value.balances, response.value.metadata)
      ensures address == "" || response.None? ==> ethTokens == old(ethTokens)
    {
      if address == "" {
        return;
      }
      match response {
        case None =>
        case Some(data) =>
          ethTokens := EvmTokens.CleanTokens(data.balances, data.metadata);
      }
    }

    /**
     * `fetchSolanaTokens(address)`: `response` is the account list the RPC call
     * delivered, `None` if the address did not parse as a public key or the call was
     * rejected. The list is assigned only on success.
     */
    method FetchSolanaTokens(address: string, response: Option<seq<SolanaTokens.TokenAccount>>)
      requires Valid()
      modifies this`solTokens
      ensures Valid()
      ensures address != "" && response.Some? ==> solTokens == SolanaTokens.FormatAccounts(response.value)
      ensures address == "" || response.None? ==> solTokens == old(solTokens)
    {
      if address == "" {
        return;
      }
      match response {
        case None =>
        case Some(accounts) =>
          solTokens := SolanaTokens.FormatAccounts(accounts);
      }
    }

    /**
     * `handleQuery`: clear both lists, fetch each chain for its target, then mark the
     * query complete. A chain without a target or whose fetch failed ends empty; a
     * chain whose fetch succeeded ends with exactly its cleaned list.
     */
    method HandleQuery(ethResponse: Option<EvmTokens.EvmResponse>,
                       solResponse: Option<seq<SolanaTokens.TokenAccount>>)
      requires Valid()
      modifies this`ethTokens, this`solTokens, this`hasQueried
      ensures Valid()
      ensures hasQueried
      ensures var target := Target(searchAddress, ethAddress);
        ethTokens == if target != "" && ethResponse.Some?
                     then EvmTokens.CleanTokens(ethResponse.value.balances, ethResponse.value.metadata)
                     else []
      ensures var target := Target(searchAddress, solAddress);
        solTokens == if target != "" && solResponse.Some?
                     then SolanaTokens.FormatAccounts(solResponse.value)
                     else []
    {
      var ethTarget := Target(searchAddress, ethAddress);
      var solTarget := Target(searchAddress, solAddress);

      ethTokens := [];
      solTokens := [];
      hasQueried := false;

      FetchEthereumTokens(ethTarget, ethResponse);
      FetchSolanaTokens(solTarget, solResponse);

      hasQueried := true;
    }
  }
}
