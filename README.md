# Entregable11 authentication adapter and purchase-email lists, in Dafny

This project models the two parts of `src/utils.js` in this e-commerce backend that contain original logic. Everything else in that file is configuration handed to libraries.

- **The `passportCall` strategy callback** (`auth.dfy`, module `Auth`). The authentication strategy reports `(err, user, info)`. The callback does one of three things:
  - It forwards an error to `next(err)`.
  - It answers a rejection with status 401 and the body `{status: 'error', message: [text]}`. The text is the rejection reason, with three known reasons translated into Spanish.
  - It attaches an accepted user to `req.user` and calls `next()`.

  The request, the response and `next` are modelled as one object, the class `Auth.Exchange`. Its fields are `req.user`, the status code, the sent body and the log of calls to `next`. The reason is picked and rewritten by the method `Auth.SelectMessage`, which keeps the source's three sequential `if`s. That method is proved equal to a single lookup in the table `Auth.Translations`.
- **The product lists of the purchase-summary email** (`purchase_email.dfy`, module `PurchaseEmail`). The source builds each list as `items.map(p => '<li>' + p + '</li>').join('')`. `PurchaseEmail.RenderList` models this with `Join` (the semantics of `Array.prototype.join`) and `Tags` (the `map`).

`option.dfy` holds the `Option` datatype. In the callback, `None` means different things for different arguments:

- For `err` and `user`, `None` stands for any falsy JavaScript value, such as `null`, `undefined`, `false`, `0` or `""`.
- For `info`, `None` stands only for `null` or `undefined`. These are the only values for which reading `info.message` throws.
- Any other `info` is modelled as `Some(Info(message, text))`. Here `text` is what `info.toString()` returns. For `info = false`, for example, `message` is `None` and `text` is `"false"`, so the answer is a 401 with the message `["false"]`.

## Model

| member | source | states |
|---|---|---|
| Auth.Exchange.Authenticate | src/utils.js:45-68 | If `err` is truthy, the only change is a call `next(err)`, even when a user is also supplied. If `err` is falsy and `user` is falsy, the model sets status 401, sends `{status: 'error', message: [Translate(Reason(info))]}`, leaves `req.user` unchanged and does not call `next`. A rejection without `info` throws and changes nothing. If `err` is falsy and `user` is truthy, `req.user` becomes the user, `next()` is called once, and no status or body is written. |
| Auth.Exchange.constructor | src/utils.js:44 | A fresh request has no user attached, the default status 200, nothing sent and no call to `next`. |
| Auth.SelectMessage | src/utils.js:48-60 | The reason is picked by `info.message ? info.message : info.toString()` and rewritten by the three sequential `if`s. The result is always the single table lookup `Translate(Reason(info))`. A message or `toString` text that is not a key passes through unchanged. |
| Auth.KnownReasonsTranslated | src/utils.js:50-60 | `jwt expired` becomes `El token ha expirado`. `No auth token` becomes `No se ha enviado el token`. `invalid token` becomes `El token es inválido`. |
| Auth.TranslationsAreNotKeys | src/utils.js:50-60 | No translated text is itself a key, so no later `if` of the chain can fire again on an earlier rewrite. |
| Auth.TranslateFixesExactlyNonKeys | src/utils.js:48-60 | Translation leaves a reason unchanged if and only if the reason is not one of the three keys. |
| Auth.TranslateIdempotent | src/utils.js:50-60 | Translating twice gives the same text as translating once. |
| Auth.Truthy | src/utils.js:48 | Definition: a string message is truthy exactly when it is present and not empty. |
| Auth.Reason | src/utils.js:48 | Definition: the reason is `info.message` when `Truthy` holds, otherwise the `toString()` text `info.text`. |
| Auth.Translate | src/utils.js:50-60 | Definition: one lookup in the constant table `Auth.Translations`, which holds the three rewrites of lines 50-60. Any other reason is returned unchanged. |
| PurchaseEmail.Tag | src/utils.js:99 | Definition: the template literal wraps one product in `<li>` and `</li>`. |
| PurchaseEmail.Join | src/utils.js:99 | Definition: `Array.prototype.join`. An empty array gives `""`, and one element gives itself. Otherwise the first element, the separator and the join of the rest are concatenated. |
| PurchaseEmail.Tags | src/utils.js:99 | The `map` yields one `<li>…</li>` tag per item, in the same order, with the same count. |
| PurchaseEmail.RenderList | src/utils.js:99 | Definition: the source expression, `Join(Tags(items), "")`, used for both lists, at lines 99 and 104. The lemmas below state its properties. |
| PurchaseEmail.JoinEmptySepCons | src/utils.js:99 | `join('')` of a non-empty array is its first element followed by the join of the rest. |
| PurchaseEmail.RenderEmpty | src/utils.js:104 | An empty product list renders to the empty string. |
| PurchaseEmail.RenderCons | src/utils.js:99 | The rendering of a non-empty list is the first item's tag followed by the rendering of the rest. This characterises the output as the in-order concatenation of the tags. |
| PurchaseEmail.RenderAppend | src/utils.js:99 | Rendering `a + b` equals rendering `a` followed by rendering `b`. |
| PurchaseEmail.RenderAt | src/utils.js:104 | Item `k`'s tag appears exactly between the rendering of the items before it and the rendering of the items after it. |
| PurchaseEmail.RenderLength | src/utils.js:99 | The output length is the sum of the item lengths plus 9 characters per item. |

## Left out

- `createHash` and `isValidPassword` (src/utils.js:32-36) are bcrypt hashing and comparison. They are cryptographic library calls with nothing to state here.
- `generateToken` (src/utils.js:38-41) is a jsonwebtoken signing call. Its 30-minute expiry depends on the wall clock.
- The `passport.authenticate(strategy, …)` call itself (src/utils.js:45, 68) is left out. The strategy is an external library, so its outcome is an input to `Auth.Exchange.Authenticate`.
- Asynchrony is left out. The model runs the callback as one atomic step.
- `Auth.Exchange.Authenticate` does not model where the exception goes when a rejection arrives without `info`. The model only reports `threw` and leaves the state unchanged.
- `Auth.Exchange.Authenticate` does not model Express's refusal to send a second response on the same request. `sent` is simply overwritten.
- `Auth.Truthy` covers only string messages. A truthy non-string `info.message` is not modelled.
- The multer `storage` and `uploader` configuration (src/utils.js:15-30) is left out. It uses file-system paths, `Date.now()` and console logging.
- The nodemailer `transport` and the `sendMail` call (src/utils.js:72-117) are SMTP network I/O. Only the two list-rendering expressions are modelled, not the surrounding HTML template.
- `generateProduct` (src/utils.js:119-128) is left out. It uses faker randomness and a floating-point price.
- The module-path plumbing, `__dirname` and `fileURLToPath` (src/utils.js:11-12, 130), is left out.
- `PurchaseEmail.RenderLength` counts Dafny characters (Unicode scalar values). JavaScript's `length` counts UTF-16 code units, which differs for characters outside the Basic Multilingual Plane.
