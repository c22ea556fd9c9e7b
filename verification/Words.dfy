// Member names as they occur in pointers.
// A name without a slash or a tilde is
// plain and needs no escaping; the lemmas
// below say so of the names that the
// builders write.
module Words {
  predicate Plain(s: string) {
    forall i :: 0 <= i < |s| ==> s[i] != '/' && s[i] != '~'
  }

  lemma PlainWords()
    ensures Plain("spec") && Plain("metadata") && Plain("-")
    ensures Plain("containers") && Plain("resources") && Plain("requests") && Plain("limits") && Plain("claims")
  {
  }

  lemma PlainMembers()
    ensures Plain("resourceClaims") && Plain("annotations")
    ensures Plain("affinity") && Plain("nodeAffinity") && Plain("nodeSelectorTerms") && Plain("matchFields")
  {
  }

  lemma PlainTogether(a: string, b: string)
    requires Plain(a) && Plain(b)
    ensures Plain(a + b)
  {
  }

  lemma PlainRequired()
    ensures Plain("requiredDuring" + "SchedulingIgnored" + "DuringExecution")
  {
    PlainTogether("requiredDuring", "SchedulingIgnored");
    PlainTogether("requiredDuring" + "SchedulingIgnored", "DuringExecution");
  }
}
