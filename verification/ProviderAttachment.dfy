/** AttachProvider and DetachProvider on a sandbox's provider list (internal/storage/store/store.go). */
module ProviderAttachment {
  import opened Sequences
  import opened StoreState

  lemma {:induction false} WithoutIsFilter<T>(s: seq<T>, x: T)
    ensures x !in Without(s, x)
    ensures multiset(Without(s, x)) == multiset(s)[x := 0]
    ensures x !in s ==> Without(s, x) == s
  {
    if s != [] {
      assert s == [s[0]] + s[1..];
      WithoutIsFilter(s[1..], x);
    }
  }

  lemma {:induction false} WithoutConcat<T>(a: seq<T>, b: seq<T>, x: T)
    ensures Without(a + b, x) == Without(a, x) + Without(b, x)
  {
    if a == [] {
      assert a + b == b;
    } else {
      assert (a + b)[1..] == a[1..] + b;
      WithoutConcat(a[1..], b, x);
    }
  }

  lemma WithoutSnoc(s: seq<string>, x: string)
    requires x !in s
    ensures Without(s + [x], x) == s
  {
    WithoutConcat(s, [x], x);
    WithoutIsFilter(s, x);
    assert Without([x], x) == [];
  }

  /** Detaching undoes an attach that did something; the whole state is as before. */
  lemma DetachUndoesAttach(st: State, name: string, provider: string)
    requires Flushes(st, Attach(name, provider))
    ensures Apply(Apply(st, Attach(name, provider)), Detach(name, provider)) == st
  {
    WithoutSnoc(st.sandboxes[name].attachedProviders, provider);
    assert st.sandboxes[name := st.sandboxes[name]] == st.sandboxes;
  }

  /** Detaching removes every occurrence of that provider and no other. */
  lemma DetachRemovesAll(st: State, name: string, provider: string)
    requires name in st.sandboxes
    ensures var after := Apply(st, Detach(name, provider)).sandboxes[name].attachedProviders;
            && provider !in after
            && multiset(after) == multiset(st.sandboxes[name].attachedProviders)[provider := 0]
  {
    WithoutIsFilter(st.sandboxes[name].attachedProviders, provider);
  }

  /** Attaching leaves the attached ones in their order and puts a new one at the end. */
  lemma AttachGoesLast(st: State, name: string, provider: string)
    requires name in st.sandboxes
    ensures var before := st.sandboxes[name].attachedProviders;
            var after := Apply(st, Attach(name, provider)).sandboxes[name].attachedProviders;
            before <= after && if provider in before then after == before else after[|before|..] == [provider]
  {
  }

  /** A list without repetitions stays so under attaching. */
  lemma AttachKeepsDistinct(st: State, name: string, provider: string)
    requires name in st.sandboxes
    requires forall p :: multiset(st.sandboxes[name].attachedProviders)[p] <= 1
    ensures forall p :: multiset(Apply(st, Attach(name, provider)).sandboxes[name].attachedProviders)[p] <= 1
    ensures provider in Apply(st, Attach(name, provider)).sandboxes[name].attachedProviders
  {
  }
}
