/** The authority under which terminal bytes were accepted: a mode and the generation of its period. */
module InputAuthority {
  datatype Mode = Ordinary | PlanReview | PlanNote | Mixed

  datatype Authority = Authority(generation: nat, mode: Mode)

  const UNSET := Authority(0, Ordinary)

  /** Bytes of different authorities in one buffer are nobody's. */
  function Combine(current: Authority, incoming: Authority): Authority {
    if current == incoming then current else Authority(incoming.generation, Mixed)
  }

  /** A buffer's authority vouches for its bytes: unless it is mixed, every byte came under exactly it. */
  predicate Vouches(authority: Authority, tags: seq<Authority>) {
    authority.mode != Mixed ==> forall i :: 0 <= i < |tags| ==> tags[i] == authority
  }

  lemma CombineVouches(current: Authority, tags: seq<Authority>, incoming: Authority, more: seq<Authority>)
    requires Vouches(current, tags) && Vouches(incoming, more)
    ensures Vouches(Combine(current, incoming), tags + more)
  {
  }
}
