/** The site header's session state: the shared header store, wallet login
    through MetaMask or WalletConnect with the error text shown on failure,
    logout, the wrong-network dialog, and the mobile menu.

    The wallet connectors, the router and the redux store are not part of
    this model: an activation's outcome enters as a parameter, and the
    calls the header makes are recorded in its `log`. */
module Header {
  import opened Wrappers
  import opened Strings

  // ---------------------------------------------------------------------
  // The header store

  /** The three flags the header shares with the rest of the site. */
  class HeaderStore {
    var showProfileDropDown: bool
    var showDialog: bool
    var hasTriedEagerConnecting: bool

    /** Every flag starts down. */
    constructor ()
      ensures !showProfileDropDown && !showDialog && !hasTriedEagerConnecting
    {
      showProfileDropDown := false;
      showDialog := false;
      hasTriedEagerConnecting := false;
    }

    method SetShowProfileDropDown(show: bool)
      modifies this
      ensures showProfileDropDown == show
      ensures showDialog == old(showDialog) && hasTriedEagerConnecting == old(hasTriedEagerConnecting)
    {
      showProfileDropDown := show;
    }

    method SetShowDialog(show: bool)
      modifies this
      ensures showDialog == show
      ensures showProfileDropDown == old(showProfileDropDown) && hasTriedEagerConnecting == old(hasTriedEagerConnecting)
    {
      showDialog := show;
    }

    method SetHasTriedEagerConnecting(hasEagerConnected: bool)
      modifies this
      ensures hasTriedEagerConnecting == hasEagerConnected
      ensures showProfileDropDown == old(showProfileDropDown) && showDialog == old(showDialog)
    {
      hasTriedEagerConnecting := hasEagerConnected;
    }
  }

  // ---------------------------------------------------------------------
  // The login error text

  /** An error a wallet connector rejects with: its `name` and `message`,
      either of which may be missing. */
  datatype ProviderError = ProviderError(name: Option<string>, message: Option<string>)

  const NoProviderName := "NoEthereumProviderError"
  const NoProviderFound := "No Ethereum provider was found"
  const AlreadyProcessing := "Already processing eth_requestAccounts"
  const PermissionsPending := "Request of type 'wallet_requestPermissions'"
  const UserRejected := "The user rejected the request"

  const NoMetaMask := "No MetaMask detected."
  const PendingLogin := "Check MetaMask for an existing login request"
  const LoginClosed := "The MetaMask login was closed, try connecting again"
  const LoginFailed := "Something went wrong logging in"
  const WalletConnectFailed := "Something went wrong logging in with WalletConnect"

  /** `e.message?.includes(needle)`: false when there is no message. */
  predicate MessageIncludes(e: ProviderError, needle: string) {
    e.message.Some? && Contains(e.message.value, needle)
  }

  /** No provider, by the error's name or its message. */
  predicate NoProvider(e: ProviderError) {
    e.name == Some(NoProviderName) || MessageIncludes(e, NoProviderFound)
  }

  /** What the MetaMask catch block comes to: a text to show, or a
      `TypeError` of its own. */
  datatype Classified = Shows(text: string) | Throws

  /** The MetaMask catch block as written: after the no-provider test,
      `e.message.includes` is called without `?.`, so a missing message
      throws there. */
  function MetaMaskErrorAsWritten(e: ProviderError): (r: Classified)
    ensures r.Throws? ==> e.message.None?
    ensures r.Shows? && e.message.None? ==> r.text == NoMetaMask
  {
    if NoProvider(e) then Shows(NoMetaMask)
    else if e.message.None? then Throws
    else if Contains(e.message.value, AlreadyProcessing) || Contains(e.message.value, PermissionsPending) then Shows(PendingLogin)
    else if Contains(e.message.value, UserRejected) then Shows(LoginClosed)
    else Shows(e.message.value)
  }

  /** The MetaMask error text with every test written `e.message?.includes`,
      so that a missing message reaches the generic fallback. */
  function MetaMaskErrorText(e: ProviderError): (text: string)
    ensures text in {NoMetaMask, PendingLogin, LoginClosed, LoginFailed} || Some(text) == e.message
    ensures e.message.None? ==> text == NoMetaMask || text == LoginFailed
  {
    if NoProvider(e) then NoMetaMask
    else if MessageIncludes(e, AlreadyProcessing) || MessageIncludes(e, PermissionsPending) then PendingLogin
    else if MessageIncludes(e, UserRejected) then LoginClosed
    else if e.message.Some? then e.message.value
    else LoginFailed
  }

  /** The WalletConnect error text: the message, or its own fallback. */
  function WalletConnectErrorText(e: ProviderError): (text: string)
    ensures e.message.Some? ==> text == e.message.value
    ensures e.message.None? ==> text == WalletConnectFailed
  {
    if e.message.Some? then e.message.value else WalletConnectFailed
  }

  /** As written, an error without a message that is not a no-provider error
      throws inside the catch block. */
  lemma MetaMaskAsWrittenThrows()
    ensures MetaMaskErrorAsWritten(ProviderError(None, None)) == Throws
    ensures MetaMaskErrorText(ProviderError(None, None)) == LoginFailed
  {
  }

  /** As written, the generic fallback is never shown for its own sake: the
      only way to see that text is an error whose message is that text. */
  lemma MetaMaskFallbackUnreachable(e: ProviderError)
    ensures MetaMaskErrorAsWritten(e) == Shows(LoginFailed) ==> e.message == Some(LoginFailed)
  {
  }

  /** Wherever the as-written block does not throw, it shows the corrected
      text; it throws exactly on a missing message that is not a
      no-provider error. */
  lemma MetaMaskCorrectedAgrees(e: ProviderError)
    ensures MetaMaskErrorAsWritten(e) == Throws <==> e.message.None? && e.name != Some(NoProviderName)
    ensures MetaMaskErrorAsWritten(e).Shows? ==> MetaMaskErrorAsWritten(e).text == MetaMaskErrorText(e)
  {
    if !NoProvider(e) && e.message.Some? {
      assert MessageIncludes(e, AlreadyProcessing) == Contains(e.message.value, AlreadyProcessing);
    }
  }

  /** The no-provider text is shown exactly for the no-provider name or a
      message in which the no-provider phrase occurs. */
  lemma NoMetaMaskIff(e: ProviderError)
    ensures MetaMaskErrorText(e) == NoMetaMask <==>
      e.name == Some(NoProviderName)
      || (e.message.Some? && exists i :: OccursAt(e.message.value, NoProviderFound, i))
      || e.message == Some(NoMetaMask)
  {
    if e.message.Some? {
      ContainsIff(e.message.value, NoProviderFound);
    }
  }

  /** The tests run in a fixed priority: a pending request beats a
      rejection, and no-provider beats both, whatever else the message holds. */
  lemma MetaMaskPriority(e: ProviderError)
    ensures NoProvider(e) ==> MetaMaskErrorText(e) == NoMetaMask
    ensures !NoProvider(e) && MessageIncludes(e, AlreadyProcessing) ==> MetaMaskErrorText(e) == PendingLogin
    ensures !NoProvider(e) && MessageIncludes(e, PermissionsPending) ==> MetaMaskErrorText(e) == PendingLogin
    ensures (!NoProvider(e) && !MessageIncludes(e, AlreadyProcessing) && !MessageIncludes(e, PermissionsPending)
             && MessageIncludes(e, UserRejected)) ==> MetaMaskErrorText(e) == LoginClosed
  {
  }

  /** A message that is exactly the rejection phrase, and mentions none of
      the earlier phrases, gets the "closed" text. */
  lemma UserRejectedExample()
    ensures MetaMaskErrorText(ProviderError(Some("Error"), Some(UserRejected))) == LoginClosed
  {
    assert |UserRejected| < |NoProviderFound| && |UserRejected| < |AlreadyProcessing| && |UserRejected| < |PermissionsPending|;
    assert !Contains(UserRejected, NoProviderFound);
    assert !Contains(UserRejected, AlreadyProcessing);
    assert !Contains(UserRejected, PermissionsPending);
    assert UserRejected[..|UserRejected|] == UserRejected;
    assert Contains(UserRejected, UserRejected);
  }

  // ---------------------------------------------------------------------
  // The header component

  /** The two wallets the login dialog offers. */
  datatype Wallet = MetaMask | WalletConnect

  /** What the header asks of the outside world, in order. */
  datatype HeaderEffect = Activate(wallet: Wallet) | Deactivate | DispatchLogout | NavigateHome

  /** The wrong-network dialog after the chain changes to `chainId`: up
      whenever the chain is not the default one, down only when it is and the
      id is not zero, and otherwise as it was. */
  function ChainDialogAfter(shown: bool, chainId: Option<int>, defaultChainId: int): (r: bool)
    ensures chainId != Some(defaultChainId) ==> r
    ensures r != shown ==> (r <==> chainId != Some(defaultChainId))
    ensures chainId == Some(defaultChainId) && defaultChainId != 0 ==> !r
    ensures chainId == Some(defaultChainId) && defaultChainId == 0 ==> r == shown
  {
    if chainId != Some(defaultChainId) then true
    else if chainId.value != 0 then false
    else shown
  }

  /** Once the chain is the default one, a repeated change to it leaves the
      dialog down. */
  lemma ChainDialogSettles(shown: bool, defaultChainId: int)
    requires defaultChainId != 0
    ensures !ChainDialogAfter(ChainDialogAfter(shown, Some(defaultChainId), defaultChainId), Some(defaultChainId), defaultChainId)
  {
  }

  /** The header's own state beside the shared store. */
  class HeaderSession {
    const store: HeaderStore
    const defaultChainId: int
    var checkLogin: bool
    var chainDialog: bool
    var errorMessage: Option<string>
    var currentlyActivating: Option<Wallet>
    var log: seq<HeaderEffect>

    constructor (store: HeaderStore, defaultChainId: int)
      ensures this.store == store && this.defaultChainId == defaultChainId
      ensures !checkLogin && !chainDialog && errorMessage.None? && currentlyActivating.None? && log == []
    {
      this.store := store;
      this.defaultChainId := defaultChainId;
      checkLogin := false;
      chainDialog := false;
      errorMessage := None;
      currentlyActivating := None;
      log := [];
    }

    /** `activeWithMetamask`, with its catch block as written. `failure` is
        the error the connector rejects with, `None` when it connects. A
        failure whose catch block yields a text shows it, clears
        `currentlyActivating` and leaves the dialog open; one on which the
        catch block throws (`threw`) leaves the handler with the error text
        cleared and `currentlyActivating` still set. Success closes the dialog
        and checks the login. Whenever a text is shown, it is the text of the
        corrected classification. */
    method ActivateWithMetaMask(failure: Option<ProviderError>) returns (threw: bool)
      modifies this, store
      ensures log == old(log) + [Activate(MetaMask)]
      ensures threw <==> failure.Some? && MetaMaskErrorAsWritten(failure.value).Throws?
      ensures threw ==>
        && errorMessage.None? && currentlyActivating == Some(MetaMask)
        && checkLogin == old(checkLogin) && store.showDialog == old(store.showDialog)
      ensures failure.Some? && !threw ==>
        && errorMessage == Some(MetaMaskErrorText(failure.value)) && currentlyActivating.None?
        && checkLogin == old(checkLogin) && store.showDialog == old(store.showDialog)
      ensures failure.None? ==>
        errorMessage.None? && currentlyActivating == Some(MetaMask) && checkLogin && !store.showDialog
      ensures chainDialog == old(chainDialog)
      ensures store.showProfileDropDown == old(store.showProfileDropDown)
      ensures store.hasTriedEagerConnecting == old(store.hasTriedEagerConnecting)
    {
      errorMessage := None;
      currentlyActivating := Some(MetaMask);
      log := log + [Activate(MetaMask)];
      threw := false;
      if failure.Some? {
        match MetaMaskErrorAsWritten(failure.value) {
          case Throws =>
            threw := true;
          case Shows(text) =>
            MetaMaskCorrectedAgrees(failure.value);
            errorMessage := Some(text);
            currentlyActivating := None;
        }
        return;
      }
      checkLogin := true;
      store.SetShowDialog(false);
    }

    /** `activeWithWalletConnect`: the same shape, with the WalletConnect
        text and its fallback. */
    method ActivateWithWalletConnect(failure: Option<ProviderError>)
      modifies this, store
      ensures log == old(log) + [Activate(WalletConnect)]
      ensures failure.Some? ==>
        && errorMessage == Some(WalletConnectErrorText(failure.value)) && currentlyActivating.None?
        && checkLogin == old(checkLogin) && store.showDialog == old(store.showDialog)
      ensures failure.None? ==>
        errorMessage.None? && currentlyActivating == Some(WalletConnect) && checkLogin && !store.showDialog
      ensures chainDialog == old(chainDialog)
      ensures store.showProfileDropDown == old(store.showProfileDropDown)
      ensures store.hasTriedEagerConnecting == old(store.hasTriedEagerConnecting)
    {
      errorMessage := None;
      currentlyActivating := Some(WalletConnect);
      log := log + [Activate(WalletConnect)];
      if failure.Some? {
        currentlyActivating := None;
        errorMessage := Some(WalletConnectErrorText(failure.value));
        return;
      }
      checkLogin := true;
      store.SetShowDialog(false);
    }

    /** The 1500 ms timer after a successful activation clears
        `currentlyActivating`. */
    method ActivationTimerElapsed()
      modifies this
      ensures currentlyActivating.None?
      ensures checkLogin == old(checkLogin) && chainDialog == old(chainDialog)
      ensures errorMessage == old(errorMessage) && log == old(log)
    {
      currentlyActivating := None;
    }

    /** `logoutUser`: disconnect, close the profile menu, dispatch the logout,
        drop the login check and go home. */
    method LogoutUser()
      modifies this, store
      ensures log == old(log) + [Deactivate, DispatchLogout, NavigateHome]
      ensures !store.showProfileDropDown && !checkLogin
      ensures store.showDialog == old(store.showDialog)
      ensures store.hasTriedEagerConnecting == old(store.hasTriedEagerConnecting)
      ensures chainDialog == old(chainDialog) && errorMessage == old(errorMessage)
      ensures currentlyActivating == old(currentlyActivating)
    {
      log := log + [Deactivate];
      store.SetShowProfileDropDown(false);
      log := log + [DispatchLogout];
      checkLogin := false;
      log := log + [NavigateHome];
    }

    /** The effect that runs when the wallet's chain changes. */
    method ChainChanged(chainId: Option<int>)
      modifies this
      ensures chainDialog == ChainDialogAfter(old(chainDialog), chainId, defaultChainId)
      ensures checkLogin == old(checkLogin) && errorMessage == old(errorMessage)
      ensures currentlyActivating == old(currentlyActivating) && log == old(log)
    {
      if chainId != Some(defaultChainId) {
        chainDialog := true;
      } else if chainId.value != 0 {
        chainDialog := false;
      }
    }
  }

  // ---------------------------------------------------------------------
  // The mobile menu

  /** The mobile header's menu, open or closed. */
  class MobileMenu {
    var visible: bool

    constructor ()
      ensures !visible
    {
      visible := false;
    }

    /** `handleClick`: every click flips the menu. */
    method HandleClick()
      modifies this
      ensures visible == !old(visible)
    {
      visible := !visible;
    }

    /** Two clicks leave the menu as it was. */
    method ClickTwice()
      modifies this
      ensures visible == old(visible)
    {
      HandleClick();
      HandleClick();
    }
  }
}
