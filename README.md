# AI Data Science Tutor: session state machine

The tutor is a Streamlit script (`app.py`) that reruns top to bottom on
each user interaction. Between reruns it keeps a few per-session entries:
the stored API key, the chat-model client built from it, the transcript
shown to the user (`chat_history`), the LangChain conversation buffer that
is sent to the model (`memory`), and a `loading` flag. This project models
those entries and the four blocks of the script that change them:

- initialisation of a new session;
- the credential block in the sidebar, which stores a changed key and
  rebuilds the client;
- the "Clear Conversation History" button;
- the turn handler, which appends the question to the transcript, builds
  the request from the system prompt, the buffer and the question, calls
  the client, and records the reply.

It also models the two derived values shown beside the conversation (the
message count and the Connected/Disconnected status) and one whole rerun
in script order.

Files:

- `wrappers.dfy`: module `Wrappers`, the `Option` datatype.
- `messages.dfy`: module `Messages`. Role-tagged messages, the system
  prompt, `BuildRequest`, and the shape of the buffer. `Alternating` says
  the buffer is whole user/assistant exchanges. `IsSubsequence` says the
  buffer is drawn, in order, from the transcript.
- `session_spec.dfy`: module `SessionSpec`. The session as a `State` value,
  each block as a function of the state before it, the invariant `Inv`,
  and the lemmas. These cover single blocks, whole reruns (`Rerun`) and
  sequences of reruns (`Run`).
- `session.dfy`: module `App`. The class `Session` holds the same entries
  as fields. Its methods reassign them in the script's order. Each method
  is proved to end in the state the `SessionSpec` function computes, and
  to keep `Valid()`.

Opaque steps become inputs. Whether building the client succeeds for a
key is the `constructs: bool` parameter. What `invoke` returns is an
`InvokeOutcome`, either `Success(reply)` or `Failure`. The turn reports
the request it hands to `invoke` (`sent`): the key of the client that is
used and the message list. The extra field `clientKey` stands for the key
the `llm` object was built with. It is needed because a rejected key
leaves the previous client in place.

Behaviour the model pins down:

- The transcript and the buffer diverge. A successful key change empties
  the buffer but not the transcript. A failed turn adds the question to
  the transcript only. The buffer is still always a subsequence of the
  transcript. It always has even length and alternates user, assistant.
- The request is built from the buffer, never from the transcript. Its
  user turns are the buffer's user turns followed by the new question,
  which the handler does not take a second time from the transcript. A
  failed question is never resent.
- A rejected key is stored, but the client is left as it was. When a
  client was already bound, the status stays "Connected" and requests go
  out under the earlier key. When none was bound, the status stays
  "Disconnected".
- The message count and status are drawn before the turn handler runs. A
  rerun that answers a question therefore shows a count two lower than
  the transcript it leaves.
- The `loading` flag is raised and lowered within one rerun. It is false
  after every rerun that runs to the end.

The turn handler raises `loading`, appends the question to the
transcript, and only then builds the request from the buffer. The class
method follows that order; its contract states the final state.

What the script does not do:

- It has no busy guard. `loading` is never checked before a turn.
- It has no topic-moderation step and no retry loop of its own.
- A key change empties only the buffer, and only when the client is built.
  A key change never clears the transcript.
- A turn submitted without a bound client shows a warning and changes
  nothing; it returns no error value.

## Model

| member | source | states |
|---|---|---|
| `Messages.BuildRequest` | app.py:131-137 | The request has length of the buffer plus two: the fixed system prompt first, each buffer entry in order with its role, then one user entry holding the utterance |
| `Messages.AlternatingAppendPair` | app.py:150-153 | Saving one (user, assistant) exchange keeps the buffer made of whole alternating exchanges |
| `Messages.AlternatingShape` | app.py:150-153 | A buffer is whole exchanges exactly when it has even length with user entries at even and assistant entries at odd positions (both directions) |
| `Messages.AlternatingHasNoSystem` | app.py:150-153 | A well-formed buffer holds no system entry, so the prompt appears only at the head of a request |
| `Messages.RequestShape` | app.py:131-137 | Built from a well-formed buffer, the request after the prompt alternates user then assistant and ends on the user entry |
| `Messages.RequestUserTurns` | app.py:131-137 | The user turns of the request are those of the buffer followed by the utterance, which the request adds once beyond the buffer |
| `Messages.SubsequenceAppendRight` | app.py:128 | Appending to the transcript alone keeps the buffer a subsequence of it |
| `Messages.SubsequenceAppendBoth` | app.py:147-153 | Appending the same exchange to the transcript and the buffer keeps the buffer a subsequence |
| `Messages.SubsequenceNoLonger` | app.py:147-153 | A subsequence is never longer than the sequence it is drawn from |
| `SessionSpec.Initial` | app.py:16-28 | A new session has no key, no client, an empty transcript and buffer, and satisfies the invariant |
| `SessionSpec.UpdateCredential` | app.py:50-68 | Same key: nothing changes. Otherwise the key is always stored and the transcript never touched. Empty key: client dropped, buffer kept. Built: client bound to the key, buffer emptied. Rejected: client, its key and the buffer keep their old values |
| `SessionSpec.UpdateCredentialPreservesInv` | app.py:50-68 | Every branch of the credential block keeps the session invariant |
| `SessionSpec.UpdateCredentialIdempotent` | app.py:50 | Entering the same key a second time is a no-op whatever building the client would do |
| `SessionSpec.ClearHistory` | app.py:72-75 | Clear empties both the transcript and the buffer and leaves key, client and flag alone |
| `SessionSpec.ClearHistoryPreservesInv` | app.py:72-75 | Clearing keeps the session invariant |
| `SessionSpec.ClearHistoryIdempotent` | app.py:72-75 | Clearing twice gives the same state as clearing once |
| `SessionSpec.HandleTurn` | app.py:122-163 | No input: nothing changes. No client: only the warning, state unchanged. Otherwise the request from the buffer goes to the bound client. On a reply both transcript and buffer gain user then assistant. On failure only the transcript gains the user entry. The flag ends false and the key and client are untouched |
| `SessionSpec.HandleTurnPreservesInv` | app.py:122-161 | A turn, answered or failed, keeps the buffer alternating and a subsequence of the transcript, and the flag down |
| `SessionSpec.FailedTurnNotResent` | app.py:128-161 | After a failed question the next request is exactly what it would have been without it |
| `SessionSpec.TurnSendsUtteranceOnce` | app.py:128-137 | Although the question is appended to the transcript first, the request it sends has the buffer's user turns plus the question once |
| `SessionSpec.MessageCount` | app.py:117 | The "Total Messages" figure is the transcript length, which in a valid session is never below the buffer length |
| `SessionSpec.Status` | app.py:119 | The status is "Connected" exactly when a client is bound, and "Disconnected" otherwise |
| `SessionSpec.Rerun` | app.py:50-163 | After a rerun the entered key is stored. A request was sent exactly when the turn was answered or failed. The warning appears exactly when a question met no bound client. Nothing happens exactly when no question was submitted. After a clear the count shown is zero and the transcript and buffer hold only that rerun's turn |
| `SessionSpec.RerunPreservesInv` | app.py:16-163 | A whole rerun of the script keeps the session invariant |
| `SessionSpec.DisplayPrecedesTurn` | app.py:117-161 | The message count shown on a rerun is two below the final transcript after an answered turn, one below after a failed one, equal otherwise; the status shown is the one the turn ran under |
| `SessionSpec.RunPreservesInv` | app.py:16-163 | Any sequence of reruns keeps the session invariant |
| `SessionSpec.ReachableShape` | app.py:16-163 | In every reachable session the buffer has even length, alternates user then assistant, is no longer than the transcript, and the flag is down |
| `SessionSpec.TurnsCount` | app.py:122-161 | While a client is bound, each answered question adds two messages to the transcript and the buffer, each failed one adds one message to the transcript only |
| `SessionSpec.KeyChangeForgetsButShows` | app.py:50-137 | After a successful key change the transcript is kept while the next request carries only the prompt and the new question, under the new key |
| `SessionSpec.RejectedKeyKeepsOldClient` | app.py:50-66 | From any valid session, a rejected new key is stored and the status is unchanged. With a client bound, requests still go to that client under its earlier key. Without one, a question only draws the warning |
| `SessionSpec.FirstKeyRejectedStaysDisconnected` | app.py:50-66 | A fresh session whose first key is rejected stays "Disconnected" |
| `SessionSpec.RejectedSecondKeyUsesFirst` | app.py:50-66 | After an accepted then a rejected key, the second key is stored while the status is "Connected" and requests go out under the first |
| `SessionSpec.EmptyKeyDisconnects` | app.py:50-68 | An empty key shows "Disconnected" and a question then only draws the warning, with no state change |
| `App.Session.constructor` | app.py:16-28 | The fields start as the initial session and satisfy the invariant |
| `App.Session.UpdateCredential` | app.py:50-68 | The fields become what the credential function computes, the transcript unchanged, the invariant kept |
| `App.Session.ClearHistory` | app.py:72-75 | The fields become what the clear function computes: transcript and buffer empty, the rest unchanged |
| `App.Session.HandleTurn` | app.py:122-163 | The final fields, the report and the request handed to `invoke` are those of the turn function applied to the fields before the call, and the invariant is kept |
| `App.Session.Rerun` | app.py:50-163 | The blocks run in script order (credential, clear, display, turn) and end in the state and reports of the rerun function |

## Left out

- Rendering: the page setup, the chat bubbles, the character counter,
  the progress bar, the spinner, the columns and the sidebar markup. These
  only present state.
- The Gemini client and its `invoke` call are foreign network calls. They
  appear only as the `constructs` flag and the `InvokeOutcome` value; model
  name, temperature and reply content are not interpreted.
- The retry policy (initial 1 s, maximum 60 s, multiplier 2, deadline
  900 s) is configuration handed to the Google client library, whose
  backoff loop is not part of this model. Timing is not modelled at all.
- The `GRPC_DNS_RESOLVER` environment variable and the unused
  `ConversationalRetrievalChain` import are process plumbing.
- Topic moderation and a busy rejection are not in the code, so they are
  not modelled.
- Initialisation: each entry is created only when it is missing. The model
  creates all five entries together, when the session starts. A session
  holding only some entries cannot arise from the script.
- The conversation buffer is modelled as its list of messages. LangChain's
  message classes are shown by the role they stand for.
- Interrupted reruns are not modelled. Streamlit stops a running script
  at its next `st.*` call when a new widget event arrives, for instance at
  the progress update after `invoke`. That stop is not caught by
  `except Exception`, so `loading` can then stay true and the question
  appended to the transcript stays unanswered. The model runs every rerun
  to the end.
- In the credential block only the client construction may fail. The new
  conversation buffer and the success notice after it are taken not to
  raise; if one did, the new client would keep the old buffer.
- Only `invoke` may fail in the turn handler. The transcript append and
  `save_context` after it are taken not to raise.
