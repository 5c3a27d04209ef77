/**
 * The cleaning of the lists of substances and of poseurs (the people who
 * hide the substances) before they are saved, shared by the settings page
 * and the onboarding wizard: the blank entries are dropped. The edits of
 * single entries live with each page.
 */
module SettingsLists {
  import opened Text
  import opened Seqs

  /** The filter's test: `s.trim() !== ''`. */
  predicate Kept(s: string) {
    Trim(s) != []
  }

  /** `list.filter(s => s.trim() !== '')`. */
  function NonBlank(list: seq<string>): (r: seq<string>)
    ensures forall i :: 0 <= i < |r| ==> !IsBlank(r[i])
  {
    var r := Filter(list, Kept);
    forall i | 0 <= i < |r|
      ensures !IsBlank(r[i])
    {
      assert Kept(r[i]);
    }
    r
  }

  /**
   * Saving drops exactly the blank entries: every other entry is kept as
   * often as it occurred, and a list without blanks is kept as it is.
   */
  lemma NonBlankEffect(list: seq<string>, x: string)
    ensures multiset(NonBlank(list))[x] == if IsBlank(x) then 0 else multiset(list)[x]
    ensures (forall i :: 0 <= i < |list| ==> !IsBlank(list[i])) ==> NonBlank(list) == list
  {
    FilterCount(list, Kept, x);
    if forall i :: 0 <= i < |list| ==> !IsBlank(list[i]) {
      FilterAllKept(list, Kept);
    }
  }

  /** Cleaning twice is cleaning once. */
  lemma NonBlankIdempotent(list: seq<string>)
    ensures NonBlank(NonBlank(list)) == NonBlank(list)
  {
    NonBlankEffect(NonBlank(list), "");
  }

  /** Cleaning keeps the order of the kept entries: it commutes with concatenation. */
  lemma NonBlankConcat(a: seq<string>, b: seq<string>)
    ensures NonBlank(a + b) == NonBlank(a) + NonBlank(b)
  {
    FilterConcat(a, b, Kept);
  }
}
