# Clipto front-end core, modelled in Dafny

Clipto is a marketplace where fans book short videos from creators. The
creator delivers each video as an NFT. This project models the parts of the
React front end that decide things. It covers three files.

- **Creator onboarding** (`OnboardProfile.tsx`). The form validator fills an
  error dictionary one field at a time. A later assignment to a key replaces
  an earlier one. On submit, the non-empty demo links are collected into a
  list. The submit button sends the profile only when validation leaves the
  dictionary empty, and otherwise shows one error toast.
- **The order page** (`SelectedOrder.tsx`). The title and description are
  checked first. A dropped video then goes through these steps: signing,
  asking for an upload link for the file's extension, the upload, and a
  status poll that finalizes the upload once transcoding is done. "Mint and
  send NFT" calls the exchange contract. The contract version is chosen from
  the second dash-separated piece of the request id. The page then reads the
  `DeliveredRequest` event from the receipt, with the token id taken by the
  request's version, and asks the indexer to index the transaction.
- **The header** (`Header.tsx`). It covers the shared header store, the
  wallet activation handlers for MetaMask and WalletConnect and the text
  each shows when activation fails, logout, the wrong-network dialog and the
  mobile menu. Only the WalletConnect handler is wired to a button here; the
  "Continue with Metamask" button runs the Lens login instead, which is not
  modelled.

Each piece of state that the source updates in place is a class:
`OnboardForm`, `OrderPage`, `HeaderStore`, `HeaderSession` and `MobileMenu`.
Each outside call the page makes is recorded as an effect in the class's
`log`. Examples are a toast, a signature request, an upload-link request, a
contract call and a redirect. Each method is stated against a pure function
that gives the effects and the new state. Lemmas then prove what those
functions promise.

Outside services enter as parameters: the wallet, the REST API, the chain and
the indexer. For each call, the parameter is the outcome the service
returned. The schemas `Url`, `Number` and `Address` enter as sets of accepted
values. Some JavaScript built-ins are written out: `String.prototype.split`
and `pop`, `includes`, `parseInt`, `Number.prototype.toString`, and
BigNumber's `toNumber`, which throws above 2^53 - 1.

Files:

- `strings.dfy`: `Option`, and `split`/`join`/`includes` on strings.
- `js_number.dfy`: `parseInt` and `toString` on integers.
- `onboard_profile.dfy`: the onboarding form.
- `selected_order.dfy`: the order page.
- `header.dfy`: the header.

## Model

| member | source | states |
|---|---|---|
| OnboardProfile.Validate | src/pages/creator/OnboardProfile.tsx:211-296 | After the ten checks run in the source's order, each key holds exactly the message of the last check that failed for that field. With an account, `tweetUrl` is never set. The dictionary is empty exactly when every field passes. |
| OnboardProfile.ValidatedAll | src/pages/creator/OnboardProfile.tsx:211-296 | A dictionary that matches the expected message for all ten checks holds each field's message, and it is empty exactly when the form is valid. |
| OnboardProfile.FieldError | src/pages/creator/OnboardProfile.tsx:211-296 | With an account, the tweet URL gets no message. Validate, FormValidIff and FieldErrorBelongs build on it. |
| OnboardProfile.FieldErrorBelongs | src/pages/creator/OnboardProfile.tsx:211-296 | A field only ever gets one of its own messages, and a link message only lands on a demo key. |
| OnboardProfile.DeliveryTimeError | src/pages/creator/OnboardProfile.tsx:233-244 | The delivery time only gets one of its three messages. An accepted time is one that `Number` accepts and that `toString` of its `parseInt` reproduces. DeliveryTimeAccepted gives the exact condition. |
| OnboardProfile.CheckIdentity | src/pages/creator/OnboardProfile.tsx:218-232 | After the bio, user-name and picture checks, those three keys hold their expected messages. No later key is set. |
| OnboardProfile.CheckDeliveryAndDemos | src/pages/creator/OnboardProfile.tsx:233-267 | After the delivery-time and demo-link checks, the first seven keys hold their expected messages. No later key is set. |
| OnboardProfile.CheckPriceTweetAndAddress | src/pages/creator/OnboardProfile.tsx:268-294 | After the price, tweet and address checks, all ten keys hold their expected messages. Without an account the tweet URL is checked. With one, the tweet URL is skipped. |
| OnboardProfile.CheckDeliveryTime | src/pages/creator/OnboardProfile.tsx:233-244 | The delivery-time key ends up with the message the overwriting checks leave. A rejected number gives "not a number". A value of zero or less gives "greater than 0", which replaces the format message. A form that `toString` does not reproduce gives the format message. |
| OnboardProfile.CheckPrice | src/pages/creator/OnboardProfile.tsx:268-276 | The price key gets "not a number" when `Number` rejects the parsed price. It gets "greater than 0" when the price is not positive. |
| OnboardProfile.RequireUrl | src/pages/creator/OnboardProfile.tsx:224-232 | A required URL field gets its "empty" message when blank and its "must be an url" message when `Url` rejects it. Otherwise it gets no message. |
| OnboardProfile.FormValidIff | src/pages/creator/OnboardProfile.tsx:211-296 | The form is valid exactly when every condition holds. Bio, user name and picture are present. The picture is a URL. The delivery time is accepted. Each non-empty demo is a URL. The price is a positive number. The tweet URL is present and a URL, unless the user has an account. The address is valid. |
| OnboardProfile.ValidPassesChecks | src/pages/creator/OnboardProfile.tsx:211-296 | A form with no field message passes every one of the listed checks. |
| OnboardProfile.ChecksPassValid | src/pages/creator/OnboardProfile.tsx:211-296 | A form that passes every listed check leaves no message on any field. |
| OnboardProfile.DeliveryTimeAccepted | src/pages/creator/OnboardProfile.tsx:233-244 | A delivery time passes exactly when `Number` accepts `parseInt` of it and the text is a positive integer written as `toString` writes it, or "NaN". |
| OnboardProfile.CanonicalDeliveryTimeAccepted | src/pages/creator/OnboardProfile.tsx:233-244 | The decimal form of any positive integer that `Number` accepts passes the delivery-time check. |
| OnboardProfile.NonPositiveDeliveryTimeWins | src/pages/creator/OnboardProfile.tsx:236-241 | For an accepted integer of zero or less, the last assignment wins: "greater than 0" replaces the format message. |
| OnboardProfile.MalformedDeliveryTimes | src/pages/creator/OnboardProfile.tsx:233-238 | "007" and "2.5" get the leading-zeros/decimal message. |
| OnboardProfile.ZeroDeliveryTimes | src/pages/creator/OnboardProfile.tsx:233-241 | "00" and "0.5" parse to zero and get the "greater than 0" message. |
| OnboardProfile.ParseLeadingZeros | src/pages/creator/OnboardProfile.tsx:233 | `parseInt` ignores leading zeros: "007" reads 7 and "00" reads 0. |
| OnboardProfile.ParseDecimalPart | src/pages/creator/OnboardProfile.tsx:233 | `parseInt` stops at the decimal point: "2.5" reads 2 and "0.5" reads 0. |
| OnboardProfile.NonEmptyKeeps | src/pages/creator/OnboardProfile.tsx:192-195 | The demo filter never grows the list. It keeps every non-empty link and adds nothing else. |
| OnboardProfile.CollectDemos | src/pages/creator/OnboardProfile.tsx:192-195 | The pushed demo list is the non-empty links in order. It has at most three entries, and a link is in it exactly when it is non-empty and one of the three. |
| OnboardProfile.OnboardForm.constructor | src/pages/creator/OnboardProfile.tsx:59-60 | The form starts not loading, with nothing sent. |
| OnboardProfile.OnboardForm.Submit | src/pages/creator/OnboardProfile.tsx:187-210 | Submit sends one call: update for an existing creator, create for a new one. The payload holds the values, the demo list and the parsed delivery time. The update call awaits the wallet signature outside any `try` (line 68). If the user rejects that signature, the handler stops and `loading` stays up. In every other case `loading` is down afterwards. |
| OnboardProfile.OnboardForm.PressSubmit | src/pages/creator/OnboardProfile.tsx:401-413 | While `loading` is up the button is disabled, and a press changes nothing. Otherwise the button submits exactly when the form is valid. Otherwise it shows the single "Please fix the errors." toast. The press lowers `loading` before the un-awaited submit raises it again. So `loading` ends up only for a valid form of an existing creator whose signature is rejected. |
| JsNumber.ParseIntToString | src/pages/creator/OnboardProfile.tsx:233-236 | `parseInt` reads back what `toString` writes for every integer. |
| JsNumber.ParseNatToString | src/pages/creator/OnboardProfile.tsx:233-236 | `parseInt` reads back the decimal form of every natural number. |
| JsNumber.ParseNegToString | src/pages/creator/OnboardProfile.tsx:233-236 | `parseInt` reads back a minus sign followed by a decimal form as the negated number. |
| JsNumber.DecimalIsPlain | src/pages/creator/OnboardProfile.tsx:236 | `toString` of a natural number is a plain run of digits, with no leading zero unless it is "0", whose value is the number. |
| JsNumber.DecimalDigits | src/pages/creator/OnboardProfile.tsx:236 | The decimal form of a natural number is all digits. It has no leading zero unless it is "0". |
| JsNumber.DecimalValue | src/pages/creator/OnboardProfile.tsx:236 | The value of the decimal form's digits is the number itself. |
| JsNumber.ParseInt | src/pages/creator/OnboardProfile.tsx:233 | `parseInt` is NaN on an empty or white-space-only string. It is NaN on a string that starts with a character that is not white space, not a sign and not a digit. A string that starts with a digit from 1 to 9 reads as a non-negative integer. ParseIntToString is its round trip with `toString`. |
| JsNumber.NumberToString | src/pages/creator/OnboardProfile.tsx:236 | `toString` never gives the empty string. It gives "NaN" exactly for NaN. An integer's text starts with a minus sign exactly when the integer is negative. |
| Strings.Split | src/pages/SelectedOrder/SelectedOrder.tsx:118 | `split` returns at least one piece, so `pop` always yields a string. |
| Strings.JoinSplit | src/pages/SelectedOrder/SelectedOrder.tsx:118 | Joining the pieces of a split with the separator gives back the string. |
| Strings.SplitPiecesFree | src/pages/SelectedOrder/SelectedOrder.tsx:118 | No piece of a split contains the separator. |
| Strings.SplitWithoutSep | src/pages/SelectedOrder/SelectedOrder.tsx:118 | A string without the separator splits into itself alone. |
| Strings.SplitAfterHead | src/pages/SelectedOrder/SelectedOrder.tsx:209 | Splitting a separator-free head, the separator and a tail gives the head followed by the tail's pieces. |
| Strings.JoinLast | src/pages/SelectedOrder/SelectedOrder.tsx:118 | The joined string ends with the last piece. When there are several pieces, a separator comes right before it. |
| Strings.LastPieceIsTail | src/pages/SelectedOrder/SelectedOrder.tsx:118 | The last piece has no separator. It is the whole string when there is no separator, and otherwise it is what follows the last separator. |
| Strings.ContainsIff | src/components/Header/Header.tsx:202-209 | `includes` holds exactly when the needle occurs at some position of the text. |
| SelectedOrder.ValidateNft | src/pages/SelectedOrder/SelectedOrder.tsx:92-98 | There is no error exactly when both the title and the description are non-empty. Each field's key is present exactly when that field is empty, with "This field cannot be empty". |
| SelectedOrder.FileExtension | src/pages/SelectedOrder/SelectedOrder.tsx:118 | The extension has no dot. It is the whole name when the name has no dot. Otherwise the name is a prefix, a dot and the extension. |
| SelectedOrder.ContractFor | src/pages/SelectedOrder/SelectedOrder.tsx:209-210 | An id is only sent to the V0 exchange when it contains a dash. ContractForV0, ContractForV0Then and ContractForV0Shape give the exact shapes. |
| SelectedOrder.ContractForNoDash | src/pages/SelectedOrder/SelectedOrder.tsx:209-210 | An id without a dash has no second piece, so it is sent to the V1 exchange. |
| SelectedOrder.SecondPiece | src/pages/SelectedOrder/SelectedOrder.tsx:209 | The second dash piece of a dash-free head, a dash and a tail is the tail's first piece. |
| SelectedOrder.ContractForV0 | src/pages/SelectedOrder/SelectedOrder.tsx:209-210 | A dash-free head followed by "-v0" goes to the V0 exchange. |
| SelectedOrder.ContractForV0Then | src/pages/SelectedOrder/SelectedOrder.tsx:209-210 | A dash-free head, "-v0-" and anything after also go to the V0 exchange. |
| SelectedOrder.ContractForV0Shape | src/pages/SelectedOrder/SelectedOrder.tsx:209-210 | Every id sent to the V0 exchange has one of those two shapes. |
| SelectedOrder.FindEvent | src/pages/SelectedOrder/SelectedOrder.tsx:188-189 | `find` returns an event of the list with that name. It returns nothing exactly when no event has the name. |
| SelectedOrder.FindEventFirst | src/pages/SelectedOrder/SelectedOrder.tsx:189 | `find` returns the first event with the name: no earlier event has it. |
| SelectedOrder.ToNumber | src/pages/SelectedOrder/SelectedOrder.tsx:193-194 | `toNumber` either throws or gives an id, and an id it gives is always a safe integer. |
| SelectedOrder.DeliveredTokenId | src/pages/SelectedOrder/SelectedOrder.tsx:187-194 | A token id is read exactly when there is a `DeliveredRequest` event with arguments. It is read from `tokenId` for version "v0" and from `nftTokenId` otherwise. Given the event, the read yields an id exactly when the chosen field is present and within plus or minus 2^53 - 1; otherwise it throws. |
| SelectedOrder.TokenIdByVersion | src/pages/SelectedOrder/SelectedOrder.tsx:193-194 | For a "v0" request, `nftTokenId` is ignored. For any other version, `tokenId` is ignored. |
| SelectedOrder.DropEffects | src/pages/SelectedOrder/SelectedOrder.tsx:100-177 | A drop has one to three effects. Its last effect is a toast exactly when the upload does not start. DropGate and DropAfterGate say which effects they are. |
| SelectedOrder.DropGate | src/pages/SelectedOrder/SelectedOrder.tsx:100-109 | A drop with a missing title or description does only one thing: it shows the "Please add title and description" toast. It never signs or requests a link. |
| SelectedOrder.DropAfterGate | src/pages/SelectedOrder/SelectedOrder.tsx:111-174 | A valid drop first asks to sign the upload message. A link is requested only after signing, for a dot-free extension. The drop ends with the size toast exactly when the upload does not start. |
| SelectedOrder.FinalizeCountAppend | src/pages/SelectedOrder/SelectedOrder.tsx:150-157 | Finalize calls in a concatenated log add up. |
| SelectedOrder.TickEffects | src/pages/SelectedOrder/SelectedOrder.tsx:140-169 | A tick has at most three effects, all of them finalize calls, metadata fetches or toasts. It asks nothing exactly when the status call answers and transcoding is not finished. |
| SelectedOrder.FinishedTickEffects | src/pages/SelectedOrder/SelectedOrder.tsx:145-164 | A tick that finds transcoding finished starts with the one finalize call. No other finalize follows it. |
| SelectedOrder.TickFinalizeCount | src/pages/SelectedOrder/SelectedOrder.tsx:140-169 | A tick calls finalize exactly once when it finds transcoding finished, and otherwise not at all. |
| SelectedOrder.TickPermalinkToast | src/pages/SelectedOrder/SelectedOrder.tsx:140-169 | A tick ends in the permalink toast exactly when it stops the poll without storing the result. |
| SelectedOrder.TickFinalizes | src/pages/SelectedOrder/SelectedOrder.tsx:140-169 | A tick finalizes exactly once when transcoding has succeeded with both image and video complete, and otherwise not at all. The finalize carries the job, description and title captured at the drop. A tick ends with the permalink toast exactly when it stops the poll without storing the result. |
| SelectedOrder.BookingEffects | src/pages/SelectedOrder/SelectedOrder.tsx:201-222 | A booking has two to four effects. It starts with the contract call and ends with a toast. BookingOutcome says which toast. |
| SelectedOrder.BookingOutcome | src/pages/SelectedOrder/SelectedOrder.tsx:201-222 | A booking first calls `deliverRequest` on the contract the id selects, with the arweave URI. It ends with the success toast exactly when the booking succeeds, and with the mint-failed toast otherwise. A success always asks to index the transaction. |
| SelectedOrder.OrderPage.constructor | src/pages/SelectedOrder/SelectedOrder.tsx:55-67 | The page starts with empty text fields, no upload, no token URI, not done and not minting. |
| SelectedOrder.OrderPage.EditDetails | src/pages/SelectedOrder/SelectedOrder.tsx:342-364 | While the upload form is on the page (the request is not delivered and the order is not done), typing sets the title and description and nothing else. Otherwise nothing changes. |
| SelectedOrder.OrderPage.Drop | src/pages/SelectedOrder/SelectedOrder.tsx:100-177 | Once the request is delivered or the order is done, the dropzone is gone and a drop changes nothing (line 342). Otherwise the drop's effects are exactly those of the drop specification. The form error is the validation result, or cleared. A started upload records the job, with the title and description captured at that moment, and shows "Uploading...". |
| SelectedOrder.OrderPage.UploadErrored | src/pages/SelectedOrder/SelectedOrder.tsx:130-132 | An upload error shows a toast carrying the event's detail and changes nothing else. |
| SelectedOrder.OrderPage.UploadSucceeded | src/pages/SelectedOrder/SelectedOrder.tsx:139-140 | A successful upload starts the poll. |
| SelectedOrder.OrderPage.PollTick | src/pages/SelectedOrder/SelectedOrder.tsx:140-169 | A tick's effects, status, poll flag, token URI and metadata are exactly those of the tick specification. |
| SelectedOrder.OrderPage.RunPolling | src/pages/SelectedOrder/SelectedOrder.tsx:140-169 | The interval processes the ticks in order up to and including the first one that stops it, and no tick after that. It is still polling exactly when no tick stopped it. The log gains those ticks' effects in order, and the status, token URI and metadata are those the ticks leave. The finalize calls added are one per such tick that found transcoding finished, so the upload is finalized at most once, and once it is finalized the poll has stopped. The title, description, form error, request, job and booking state are unchanged. |
| SelectedOrder.FirstStop | src/pages/SelectedOrder/SelectedOrder.tsx:145-168 | The first tick that clears the interval: every earlier tick found transcoding still running. |
| SelectedOrder.RunFinalizeTotal | src/pages/SelectedOrder/SelectedOrder.tsx:140-169 | The finalize calls that a run of ticks adds to a log are one per tick that found transcoding finished. |
| SelectedOrder.RunFinalizeCount | src/pages/SelectedOrder/SelectedOrder.tsx:140-169 | Among the ticks the interval processes, exactly one finalizes when the tick that stops it found transcoding finished. None does when a failed status call stopped it, or while it is still running. |
| SelectedOrder.RunFinalizesOnce | src/pages/SelectedOrder/SelectedOrder.tsx:140-169 | Replies that find transcoding still running, then one that finds it finished: the interval stops at that reply and the upload is finalized exactly once. |
| SelectedOrder.OrderPage.ExtractEvent | src/pages/SelectedOrder/SelectedOrder.tsx:187-199 | The call throws exactly when reading the token id throws. When an id is read, the NFT is fetched with the current token URI and the order is marked done. Otherwise nothing changes. |
| SelectedOrder.OrderPage.Confirm | src/pages/SelectedOrder/SelectedOrder.tsx:212-221 | After the transaction is mined, the effects are the rest of the booking specification after the contract call. `minting` stays up exactly on success. The order is done exactly when a token id is read. |
| SelectedOrder.OrderPage.MintFailedToast | src/pages/SelectedOrder/SelectedOrder.tsx:218-221 | The `catch` lowers `minting` and shows "Failed to mint NFT!", and changes nothing else. |
| SelectedOrder.OrderPage.Deliver | src/pages/SelectedOrder/SelectedOrder.tsx:207-221 | With a loaded request, the effects are the contract call followed by the rest of the booking specification. `minting` stays up exactly on success. The order is done exactly when the receipt yields a token id. |
| SelectedOrder.OrderPage.CompleteBooking | src/pages/SelectedOrder/SelectedOrder.tsx:201-222 | Without a request there is only the reload toast. Otherwise the effects are those of the booking specification. `minting` stays up exactly on success. The order is done exactly when the receipt yields a token id. |
| SelectedOrder.OrderPage.PressMint | src/pages/SelectedOrder/SelectedOrder.tsx:419-423 | The mint button runs the booking only when it is shown and not disabled by `minting`; otherwise nothing happens. When it runs without a request, only the reload toast appears. With a request, the effects are those of the booking specification, `minting` stays up exactly on success, and the order is done exactly when the receipt yields a token id. No other field changes. |
| SelectedOrder.OrderPage.NewUpload | src/pages/SelectedOrder/SelectedOrder.tsx:419-430 | "New upload" is shown only beside the mint button and is disabled while minting. It drops the metadata exactly when the button is shown and enabled, and changes nothing else. |
| Header.HeaderStore.constructor | src/components/Header/Header.tsx:60-64 | All three store flags start down. |
| Header.HeaderStore.SetShowProfileDropDown | src/components/Header/Header.tsx:65-69 | The setter sets the dropdown flag and only that flag. |
| Header.HeaderStore.SetShowDialog | src/components/Header/Header.tsx:70-74 | The setter sets the login-dialog flag and only that flag. |
| Header.HeaderStore.SetHasTriedEagerConnecting | src/components/Header/Header.tsx:75-79 | The setter sets the eager-connect flag and only that flag. |
| Header.MetaMaskErrorAsWritten | src/components/Header/Header.tsx:202-213 | As written, the catch block throws only on an error without a message. Without a message, the only text it can show is the no-provider text. |
| Header.MetaMaskErrorText | src/components/Header/Header.tsx:202-213 | The corrected text is one of the four fixed texts or the error's own message. Without a message, it is the no-provider text or the generic fallback. |
| Header.MetaMaskAsWrittenThrows | src/components/Header/Header.tsx:202-212 | As written, an error with no name and no message throws inside the catch block. The corrected text shows the generic fallback. |
| Header.MetaMaskFallbackUnreachable | src/components/Header/Header.tsx:202-212 | As written, the generic fallback appears only when it is the error's own message. |
| Header.MetaMaskCorrectedAgrees | src/components/Header/Header.tsx:202-212 | The as-written block throws exactly when the message is missing and the name is not the no-provider name. Whenever it does not throw, it shows the corrected text. |
| Header.NoMetaMaskIff | src/components/Header/Header.tsx:202-203 | "No MetaMask detected." is shown exactly for a no-provider error, by name or message, or for an error whose message is that text. |
| Header.MetaMaskPriority | src/components/Header/Header.tsx:202-211 | The tests apply in order: no provider, then a pending request, then a rejection, then the message itself. |
| Header.UserRejectedExample | src/components/Header/Header.tsx:208-209 | A message that is exactly the rejection phrase gets the "login was closed" text. |
| Header.HeaderSession.constructor | src/components/Header/Header.tsx:161-192 | The session starts with no login check, no chain dialog, no error and nothing activating. |
| Header.HeaderSession.ActivateWithMetaMask | src/components/Header/Header.tsx:194-221 | Activation calls the connector. When the catch block, as written, throws (an error without a message that is not a no-provider error), the handler leaves with the error cleared and `currentlyActivating` still set. Any other failure shows the corrected MetaMask text, clears `currentlyActivating` and leaves the dialog as it was. A success clears the error, checks the login and closes the dialog. |
| Header.HeaderSession.ActivateWithWalletConnect | src/components/Header/Header.tsx:223-243 | The WalletConnect activation has the same shape, with the WalletConnect text. |
| Header.HeaderSession.ActivationTimerElapsed | src/components/Header/Header.tsx:240-242 | The timer clears `currentlyActivating` and nothing else. |
| Header.HeaderSession.LogoutUser | src/components/Header/Header.tsx:245-251 | Logout disconnects, dispatches the logout and navigates home, in that order. It closes the profile dropdown and drops the login check. |
| Header.HeaderSession.ChainChanged | src/components/Header/Header.tsx:282-288 | A chain change sets the dialog as the chain-dialog function says. |
| Header.ChainDialogAfter | src/components/Header/Header.tsx:282-288 | The dialog is up whenever the chain is not the default. It only changes toward that condition. On the default chain it is down when the default id is not zero, and unchanged when the default id is zero. |
| Header.ChainDialogSettles | src/components/Header/Header.tsx:282-288 | Repeated changes to the default chain leave the dialog down. |
| Header.MobileMenu.constructor | src/components/Header/Header.tsx:122 | The mobile menu starts closed. |
| Header.MobileMenu.HandleClick | src/components/Header/Header.tsx:123-125 | Each click flips the menu. |
| Header.MobileMenu.ClickTwice | src/components/Header/Header.tsx:123-125 | Two clicks leave the menu as it was. |

## Left out

- OnboardProfile.CheckPrice: `parseFloat` and the floating-point comparison are not modelled. Whether `Number` accepts the parsed price, and whether it is positive, enter as two sets of price texts. The payload keeps the price as typed rather than as `parseFloat(price)`.
- JsNumber.ParseIntToString: integers are unbounded. `parseInt` above 2^53 loses precision in JavaScript, and `-0` prints as "0"; neither is modelled. So "9007199254740993" reads back as itself here but not in JavaScript: OnboardProfile.DeliveryTimeAccepted and OnboardProfile.Validate accept such a delivery time where the source shows the leading-zeros/decimal message.
- The schemas `Url`, `Number` and `Address` are not modelled: their logic lives in a library. They enter as the sets of values they accept.
- Outside services are left out. These are the wallet signature, the REST calls (upload link, resumable URL, status, finalize, arweave metadata, request lookup, indexing), the exchange contracts and the chain. Each call's outcome is a parameter. Each call the page makes is an effect in the log.
- UpChunk `progress` events are left out: the percentage goes through floating point.
- OrderPage.RunPolling: the 5-second interval is modelled one tick at a time. An async tick that overlaps the next one, and several drops in flight at once, are not modelled.
- The page's initial request fetch, `fetchNFTDetails` and `fetchNFT`'s internals are left out. So are the Lens social-graph posting, JSX rendering, styling and routing. `fetchNFT` appears only as an effect.
- Header.HeaderSession.ActivateWithMetaMask: the handler is not invoked from this component. The "Continue with Metamask" button runs the Lens `login()` (Header.tsx:434-451), and only the WalletConnect handler is wired to a button (Header.tsx:462). The model states what the handler does when it is called.
- Header.HeaderSession.ActivateWithMetaMask: the TypeError the catch block throws leaves the handler as a rejected promise; the model reports it as `threw`. The login effects that follow an account change are not modelled (the dispatch of `login`, the creator lookup). Neither is eager connection. A success is modelled as leaving `currentlyActivating` set until ActivationTimerElapsed clears it.
- Header.HeaderSession.ActivateWithWalletConnect: before every WalletConnect activation, inside the `try` and ahead of `activate`, the connector's `walletConnectProvider` is reset (Header.tsx:228-230). The connector is outside the model, so that reset is not modelled.
- OnboardProfile.OnboardForm.PressSubmit: the un-awaited submit is modelled as running after the press lowers `loading`; the interleaving of its awaits with later presses is not modelled. Formik's re-validation inside `handleSubmit` is taken to agree with the press's own validation.
- OnboardProfile.OnboardForm.Submit: a rejected signature is modelled only for the update call. The log records the call as started either way; the REST calls behind it are outside services.
- Loader.tsx is not part of this model: it only renders a spinner.

## Findings

| source | as written | input that shows it | evidently intended | confidence | as-written member | corrected member |
|---|---|---|---|---|---|---|
| src/components/Header/Header.tsx:205 | After the no-provider test, the MetaMask catch block calls `e.message.includes(...)` without `?.`. An error without a message therefore throws a TypeError inside the catch block. The defect is latent in this file: no button in `Header.tsx` calls this handler. | A rejection with neither `name` nor `message`. | The generic "Something went wrong logging in" text is shown and `currentlyActivating` is reset. This is the fallback the block ends with. | not executed | Header.MetaMaskAsWrittenThrows | Header.MetaMaskErrorText |
