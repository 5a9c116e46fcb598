# Bell-LaPadula messenger: policy engine and message store

This project models the core of a small messenger that protects its messages
with the Bell-LaPadula mandatory access-control model, and proves properties
of that model in Dafny.

- `control.dfy`, module `Control`, models `messenger/control.py`. It has the four
  ordered security levels, the conversions between labels and levels (Python's
  `strip` and `capitalize` written out for ASCII), and the fixed clearance
  table with its PUBLIC default. The class `PolicyContext` holds the
  module-level state: the message-id to classification registry and the
  session user. Its methods are `set_current_user`, `get_current_user` and
  `register_message`, and its functions are `_resolve_user` and the two
  checks. Reading is the simple security property ("no read up"); writing is
  the *-property ("no write down").
- `messages.dfy`, module `MessageStore`, models `messenger/messages.py`. The
  class `Messages` keeps its list as a `seq` of message records and calls
  the engine before every read and write. `display`, `show`, `exists`,
  `update` and `remove` are loops over that sequence, with early return
  where the source returns early. `add` registers the classification and then
  appends the message.

Each label-handling and decision function is stated against the lattice
and the tables. The lemmas cover the round trips between labels and levels,
that normalisation is idempotent and ignores padding and case, and the
precedence used at registration. They also show that at least one of the
two checks passes for every subject and message. Both pass exactly when the
clearance equals the classification. The checks are monotone in the
clearance, and together they forbid any flow of information downwards. Every loop of the store is proved against a
specification function or a direct statement of its result. `update` and
`remove` are proved to change only the first message with the id, and only
when the write check passes.

## Model

| member | source | states |
|---|---|---|
| `Control.LevelOrder` | messenger/control.py:14-18 | The levels have the values 0 to 3 in the order PUBLIC < CONFIDENTIAL < PRIVILEGED < SECRET. Comparison is a total order, with PUBLIC at the bottom and SECRET at the top. |
| `Control.Strip` | messenger/control.py:30-31 | `strip()` leaves no whitespace at either end. The result is empty exactly when the input is all whitespace, and a string without surrounding whitespace is left unchanged. |
| `Control.StripSurrounding` | messenger/control.py:30-31 | `strip()` removes exactly the whitespace around a word, however much of it there is on each side. |
| `Control.Normalize` | messenger/control.py:30-31 | `_normalize_label` yields a label with no surrounding whitespace, a first character that is not a lower-case letter, and no upper-case letter after it. |
| `Control.NormalLabelIsFixed` | messenger/control.py:30-31 | A label that is already in that normal form is returned unchanged. |
| `Control.NormalizeIdempotent` | messenger/control.py:30-31 | Normalising twice gives the same result as normalising once. |
| `Control.Capitalize` | messenger/control.py:31 | `capitalize()` keeps the length, upper-cases the first character and lower-cases every later one. |
| `Control.CapitalizeIgnoresCase` | messenger/control.py:31 | `capitalize()` gives the same result for two strings that differ only in letter case. |
| `Control.PaddingAndCaseIgnored` | messenger/control.py:30-36 | A label padded with whitespace and written in any case normalises, and converts to a level, exactly as the bare label in any other case does. |
| `Control.LevelNamed` | messenger/control.py:22-27 | The dictionary lookup finds an entry exactly when the name is in the table, and then returns that entry's level. |
| `Control.LevelFromLabel` | messenger/control.py:22-36 | `level_from_label` gives SECRET, PRIVILEGED or CONFIDENTIAL exactly when the normalised label is "Secret", "Privileged" or "Confidential". Every other label is PUBLIC. |
| `Control.NameOfValue` | messenger/control.py:41-43 | The search loop returns a name exactly when some entry's level has the value. The name is that of the first such entry in table order, as the early return gives. |
| `Control.LabelFromLevel` | messenger/control.py:39-44 | `label_from_level` always returns one of the four canonical names, and returns "Public" for any value that is not a level. |
| `Control.LabelsOfLevels` | messenger/control.py:22-27 | The values 0, 1, 2 and 3 convert to "Public", "Confidential", "Privileged" and "Secret". |
| `Control.CanonicalLabelIsNormal` | messenger/control.py:22-31 | Each canonical name is its own normal form. |
| `Control.LevelLabelRoundTrip` | messenger/control.py:22-44 | For every level, converting it to its label and back gives the same level. |
| `Control.LabelLevelRoundTrip` | messenger/control.py:30-44 | For a label that names a level, converting it to the level and back gives the label's normal form. |
| `Control.UnrecognisedLabelRoundTrip` | messenger/control.py:33-44 | A label whose normal form is not "Secret", "Privileged" or "Confidential" converts to PUBLIC and comes back as "Public". That covers every unrecognised label and "Public" itself. |
| `Control.PaddedLowerCaseLabel` | messenger/control.py:30-44 | " secret " is SECRET, and converting back gives "Secret". |
| `Control.ClearanceFor` | messenger/control.py:48-61 | AdmiralAbe is SECRET, CaptainCharlie PRIVILEGED, and SeamanSam, SeamanSue and SeamanSly CONFIDENTIAL. Every other name, "" included, is PUBLIC. |
| `Control.RegisteredLevel` | messenger/control.py:91-96 | A classification above PUBLIC comes only from a label whose normal form names CONFIDENTIAL, PRIVILEGED or SECRET, or, without a label, from an author listed in the clearance table. |
| `Control.RegistrationPrecedence` | messenger/control.py:84-96 | A given label decides the level. Without a label, the author's clearance decides it. With neither, the level is PUBLIC. |
| `Control.LabelOverridesAuthor` | messenger/control.py:91-94 | The label wins over the author's clearance, whether it is higher ("Secret" by SeamanSam is SECRET) or lower, and even when it is not recognised (the empty label "" by AdmiralAbe is PUBLIC). |
| `Control.PolicyContext.constructor` | messenger/control.py:67-70 | The registry starts empty and no session user is set. |
| `Control.PolicyContext.SetCurrentUser` | messenger/control.py:73-76 | The session user becomes the given identity, without validation. The registry is unchanged. |
| `Control.PolicyContext.GetCurrentUser` | messenger/control.py:79-81 | Returns the stored session user, or none. |
| `Control.PolicyContext.RegisterMessage` | messenger/control.py:84-98 | The entry for the id is set, or overwritten, to the level chosen by the precedence. Every other id keeps its presence and its classification. |
| `Control.PolicyContext.ClassificationOf` | messenger/control.py:123 | A registered id has its recorded level. An id that is not registered is PUBLIC, and an id is PUBLIC exactly when it is unregistered or recorded as PUBLIC. |
| `Control.PolicyContext.ResolveUser` | messenger/control.py:101-111 | Returns the explicit subject if one is given, else the session user if one is set, else "", whose clearance is PUBLIC. |
| `Control.PolicyContext.CanReadMessage` | messenger/control.py:115-124 | Read is allowed exactly when the resolved subject's clearance is at least the message's classification. With no subject and no session user, only PUBLIC messages are readable. An unregistered id is readable by everyone. |
| `Control.PolicyContext.CanWriteMessage` | messenger/control.py:127-136 | Write is allowed exactly when the resolved subject's clearance is at most the message's classification. With no subject and no session user, every write is allowed. An unregistered id is writable exactly by PUBLIC subjects. |
| `Control.PolicyContext.ReadOrWrite` | messenger/control.py:115-136 | For every message and subject, at least one check passes. Both pass exactly when clearance equals classification. |
| `Control.PolicyContext.ClearanceMonotone` | messenger/control.py:115-136 | A more cleared subject reads everything a less cleared one reads. It writes only where the less cleared one may write too. |
| `Control.PolicyContext.NoFlowDown` | messenger/control.py:115-136 | If a subject may read message A and write message B, then B is classified at least as high as A. |
| `Control.UnknownSubjectIsPublic` | messenger/control.py:56-61 | A subject missing from the clearance table reads only PUBLIC messages and may write to every message. |
| `Control.UnknownUserCannotReadConfidential` | messenger/tests.py:96-111 | With message 5 registered "Confidential" and the session user "RandomGuy", the read check fails. |
| `Control.PublicUserCanWriteToSecret` | messenger/tests.py:113-129 | With message 6 registered "Secret" and the session user "Visitor", the write check passes. |
| `Control.AdmiralAndSeaman` | messenger/control.py:84-136 | With messages classified by their authors: SeamanSam cannot read AdmiralAbe's SECRET message, and AdmiralAbe can read it. AdmiralAbe reads down to a CONFIDENTIAL message but cannot write down to a PUBLIC one. |
| `MessageStore.FirstIndexOf` | messenger/messages.py:66-67 | Gives the position of the first message with the id, so no earlier message has that id. Gives none exactly when no message has the id. |
| `MessageStore.Messages.constructor` | messenger/messages.py:22-23 | A new store is empty and uses the given policy state. |
| `MessageStore.Messages.Readable` | messenger/messages.py:30-34 | The listing has no more messages than the store. |
| `MessageStore.Messages.ReadableMembers` | messenger/messages.py:30-34 | The listed messages are exactly the stored messages the session user may read. |
| `MessageStore.Messages.ReadableAppend` | messenger/messages.py:30-34 | Filtering a concatenation filters each part, so the listing keeps the store's order. |
| `MessageStore.Messages.ReadableAll` | messenger/messages.py:30-34 | When every stored message is readable, the listing is the whole store. |
| `MessageStore.Messages.Display` | messenger/messages.py:30-34 | `display` lists exactly the readable messages, in store order. |
| `MessageStore.Messages.Show` | messenger/messages.py:40-49 | `show` returns true exactly when a message with the id exists and the session user may read it. A denied read returns false, the same as a missing message. |
| `MessageStore.Messages.Exists` | messenger/messages.py:55-59 | `exists` returns true exactly when some stored message has the id. The policy is not consulted. |
| `MessageStore.Messages.Update` | messenger/messages.py:65-73 | A missing id changes nothing. A denied write changes nothing and reports access denied. An allowed write replaces the text of the first message with the id and nothing else. Ids and length are preserved. |
| `MessageStore.Messages.Remove` | messenger/messages.py:79-86 | Follows the same frame rule as update: only the first message with the id is cleared, and only when the write check passes. |
| `MessageStore.Messages.Add` | messenger/messages.py:92-96 | The new message's id is registered with its label, else its author's clearance. The message is appended last, the earlier messages are unchanged, and the session user is untouched. |

## Left out

- `_read_messages` (messenger/messages.py:102-112) is left out. It opens and parses a file, which is I/O, so the `Messages` constructor starts empty. Each parsed line amounts to one `Add` with the line's label.
- Console output is left out: the "Access denied" message, `display_properties` and `display_text`. `Display` returns the messages it would show. `Update` and `Remove` return which branch they took: `Written`, `AccessDenied` or `NotFound`.
- `message.Message` is not part of this model. A message is a record `{id, text, author, date}`. Its id comes from the message constructor and is passed to `Add`. `update_text` is modelled as replacing the text.
- Cleared: `Message.clear` is modelled as emptying the text while keeping the id, author and date. The real method is not part of this model, so this is a chosen reading of it.
- Update, Remove: Python mutates the message object in place (`update_text`, `clear`), and the model replaces the record in the sequence. Aliasing of message objects outside the store is not captured.
- Strings are ASCII only. Python's `str(label)` coerces any object, and its `strip`/`capitalize` follow Unicode. The model takes a string, strips the ASCII whitespace that `str.isspace` accepts, and changes the case of ASCII letters only.
- LabelFromLevel: takes an integer. Python compares with `==`, and a level equals any number of the same value. So `True`, `2.0` or `Decimal(3)` give "Confidential", "Privileged" and "Secret" respectively. Only arguments unequal to 0, 1, 2 and 3, such as strings or `None`, give "Public". The model does not cover bool, float or decimal arguments.
- Message ids are integers (`MessageId = int`). Python accepts any hashable id, and its dictionary treats equal keys such as `1`, `1.0` and `True` as one key. The model does not cover ids of other types.
- The module-level globals and any concurrent access to them are left out. The code is single-threaded, and the globals are the fields of one `PolicyContext` that the store shares.
- The top-level `tests.py` calls functions that do not exist, and `messenger/tests.py:9-71` passes level names where ids and usernames are expected. Neither is used as evidence. No composite "read and write" check for updates exists in the code, so `update` is gated by the write check alone.
