/**
 * Role-tagged chat messages, the outbound request the tutor sends to the
 * model, and the shape of the conversation buffer ("memory") that feeds it.
 */
module Messages {

  datatype Role = System | User | Assistant

  /** One `{"role": ..., "content": ...}` entry. */
  datatype Msg = Msg(role: Role, content: string)

  /** The fixed instruction that heads every request. */
  const SystemPrompt: string :=
    "You are a helpful AI Data Science Tutor. Answer only data science related questions. Keep responses technical and concise."

  /**
   * The request list handed to the model: the system prompt, then the
   * remembered conversation with its roles, then the new utterance.
   */
  function BuildRequest(memory: seq<Msg>, utterance: string): (r: seq<Msg>)
    ensures |r| == |memory| + 2
    ensures r[0] == Msg(System, SystemPrompt)
    ensures forall i :: 0 <= i < |memory| ==> r[i + 1] == memory[i]
    ensures r[|r| - 1] == Msg(User, utterance)
  {
    [Msg(System, SystemPrompt)] + memory + [Msg(User, utterance)]
  }

  // ---------------------------------------------------------------------
  // The shape of the conversation buffer

  /** The role a well-formed buffer holds at position `i`. */
  function RoleAt(i: nat): Role
  {
    if i % 2 == 0 then User else Assistant
  }

  /** The buffer is a run of whole (user, assistant) exchanges. */
  predicate Alternating(m: seq<Msg>)
    decreases |m|
  {
    |m| == 0 || (|m| >= 2 && m[0].role == User && m[1].role == Assistant && Alternating(m[2..]))
  }

  /** Saving one exchange keeps the buffer well formed. */
  lemma {:induction false} AlternatingAppendPair(m: seq<Msg>, u: string, r: string)
    requires Alternating(m)
    ensures Alternating(m + [Msg(User, u), Msg(Assistant, r)])
    decreases |m|
  {
    var pair := [Msg(User, u), Msg(Assistant, r)];
    if |m| == 0 {
      assert m + pair == pair;
      assert pair[2..] == [];
    } else {
      assert (m + pair)[2..] == m[2..] + pair;
      AlternatingAppendPair(m[2..], u, r);
    }
  }

  /**
   * A buffer is well formed exactly when it has even length and holds
   * user entries at even positions and assistant entries at odd ones.
   */
  lemma {:induction false} AlternatingShape(m: seq<Msg>)
    ensures Alternating(m) <==>
            (|m| % 2 == 0 && forall i :: 0 <= i < |m| ==> m[i].role == RoleAt(i))
    decreases |m|
  {
    if |m| >= 2 {
      AlternatingShape(m[2..]);
      var tail := m[2..];
      if forall i :: 0 <= i < |m| ==> m[i].role == RoleAt(i) {
        forall i | 0 <= i < |tail| ensures tail[i].role == RoleAt(i) {
          assert tail[i] == m[i + 2];
          assert RoleAt(i + 2) == RoleAt(i);
        }
      }
      if m[0].role == User && m[1].role == Assistant && forall i :: 0 <= i < |tail| ==> tail[i].role == RoleAt(i) {
        forall i | 0 <= i < |m| ensures m[i].role == RoleAt(i) {
          if i >= 2 {
            assert m[i] == tail[i - 2];
            assert RoleAt(i - 2) == RoleAt(i);
          }
        }
      }
    } else if |m| == 1 {
      assert !Alternating(m);
    }
  }

  /** A well-formed buffer never holds a system entry. */
  lemma AlternatingHasNoSystem(m: seq<Msg>)
    requires Alternating(m)
    ensures forall i :: 0 <= i < |m| ==> m[i].role != System
  {
    AlternatingShape(m);
  }

  /** The request alternates user and assistant after the prompt and ends on the user. */
  lemma RequestShape(memory: seq<Msg>, utterance: string)
    requires Alternating(memory)
    ensures var r := BuildRequest(memory, utterance);
            |r| % 2 == 0 &&
            forall i :: 1 <= i < |r| ==> r[i].role == RoleAt(i - 1)
  {
    AlternatingShape(memory);
    var r := BuildRequest(memory, utterance);
    forall i | 1 <= i < |r| ensures r[i].role == RoleAt(i - 1) {
      if i < |r| - 1 {
        assert r[i] == memory[i - 1];
      } else {
        assert (i - 1) % 2 == 0;
      }
    }
  }

  // ---------------------------------------------------------------------
  // What the user said, as seen by the model

  /** The contents of the user entries, in order. */
  function UserTurns(m: seq<Msg>): seq<string>
    decreases |m|
  {
    if m == [] then []
    else (if m[0].role == User then [m[0].content] else []) + UserTurns(m[1..])
  }

  lemma {:induction false} UserTurnsConcat(a: seq<Msg>, b: seq<Msg>)
    ensures UserTurns(a + b) == UserTurns(a) + UserTurns(b)
    decreases |a|
  {
    if a == [] {
      assert a + b == b;
    } else {
      assert (a + b)[0] == a[0];
      assert (a + b)[1..] == a[1..] + b;
      UserTurnsConcat(a[1..], b);
    }
  }

  /**
   * The request carries the remembered user turns followed by the new
   * utterance exactly once: the prompt adds no user turn and the utterance
   * is not taken from the remembered conversation.
   */
  lemma RequestUserTurns(memory: seq<Msg>, utterance: string)
    ensures UserTurns(BuildRequest(memory, utterance)) == UserTurns(memory) + [utterance]
  {
    var head := [Msg(System, SystemPrompt)];
    var last := [Msg(User, utterance)];
    UserTurnsConcat(head + memory, last);
    UserTurnsConcat(head, memory);
    assert UserTurns(head) == [] by {
      assert head[1..] == [];
    }
    assert UserTurns(last) == [utterance] by {
      assert last[1..] == [];
    }
  }

  // ---------------------------------------------------------------------
  // The buffer against the transcript

  /** `a` is obtained from `b` by deleting some entries. */
  predicate IsSubsequence(a: seq<Msg>, b: seq<Msg>)
    decreases |b|
  {
    a == [] ||
    (b != [] &&
     ((a[|a| - 1] == b[|b| - 1] && IsSubsequence(a[..|a| - 1], b[..|b| - 1])) ||
      IsSubsequence(a, b[..|b| - 1])))
  }

  /** Appending to the transcript alone keeps the buffer inside it. */
  lemma SubsequenceAppendRight(a: seq<Msg>, b: seq<Msg>, x: Msg)
    requires IsSubsequence(a, b)
    ensures IsSubsequence(a, b + [x])
  {
    assert (b + [x])[..|b|] == b;
  }

  /** Appending the same entries to both keeps the buffer inside the transcript. */
  lemma {:induction false} SubsequenceAppendBoth(a: seq<Msg>, b: seq<Msg>, p: seq<Msg>)
    requires IsSubsequence(a, b)
    ensures IsSubsequence(a + p, b + p)
    decreases |p|
  {
    if p != [] {
      var q := p[..|p| - 1];
      SubsequenceAppendBoth(a, b, q);
      assert (a + p)[..|a + p| - 1] == a + q;
      assert (b + p)[..|b + p| - 1] == b + q;
      assert (a + p)[|a + p| - 1] == (b + p)[|b + p| - 1];
    } else {
      assert a + p == a && b + p == b;
    }
  }

  /** Every buffer entry is taken from the transcript: the buffer is never longer. */
  lemma {:induction false} SubsequenceNoLonger(a: seq<Msg>, b: seq<Msg>)
    requires IsSubsequence(a, b)
    ensures |a| <= |b|
    decreases |b|
  {
    if a != [] {
      if a[|a| - 1] == b[|b| - 1] && IsSubsequence(a[..|a| - 1], b[..|b| - 1]) {
        SubsequenceNoLonger(a[..|a| - 1], b[..|b| - 1]);
      } else {
        SubsequenceNoLonger(a, b[..|b| - 1]);
      }
    }
  }
}
