/** The reference counts of src/core/message.c, as a map from the live messages to their counts. */
module Messages {

  /** eaf_msg_add_ref. */
  function IncRef(refs: map<nat, nat>, m: nat): map<nat, nat>
    requires m in refs
  {
    refs[m := refs[m] + 1]
  }

  /** eaf_msg_dec_ref: the message is destroyed when the count reaches zero. */
  function DecRef(refs: map<nat, nat>, m: nat): map<nat, nat>
    requires m in refs && refs[m] > 0
  {
    if refs[m] == 1 then refs - {m} else refs[m := refs[m] - 1]
  }

  function CountOf(refs: map<nat, nat>, m: nat): nat
  {
    if m in refs then refs[m] else 0
  }

  lemma DecCount(refs: map<nat, nat>, r: nat, m: nat)
    requires r in refs && refs[r] > 0
    ensures CountOf(DecRef(refs, r), m) == CountOf(refs, m) - (if r == m then 1 else 0)
  {
  }

  lemma IncCount(refs: map<nat, nat>, r: nat, m: nat)
    requires r in refs
    ensures CountOf(IncRef(refs, r), m) == CountOf(refs, m) + (if r == m then 1 else 0)
  {
  }

  lemma IncKeys(refs: map<nat, nat>, r: nat)
    requires r in refs
    ensures IncRef(refs, r).Keys == refs.Keys
  {
  }

  /** A new message has count one. */
  lemma NewCount(refs: map<nat, nat>, r: nat, m: nat)
    requires r !in refs
    ensures CountOf(refs[r := 1], m) == CountOf(refs, m) + (if r == m then 1 else 0)
  {
  }
}
