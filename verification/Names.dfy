/** Text as the source sees it: ordered by code point, and sorted without duplicates. */
module Names {

  /** Python's `a < b` on strings. */
  predicate Below(a: string, b: string) {
    if b == "" then false
    else if a == "" then true
    else if a[0] != b[0] then a[0] < b[0]
    else Below(a[1..], b[1..])
  }

  lemma {:induction false} BelowIsTotal(a: string, b: string)
    ensures a == b || Below(a, b) || Below(b, a)
  {
    if a != "" && b != "" && a[0] == b[0] {
      BelowIsTotal(a[1..], b[1..]);
      assert a == [a[0]] + a[1..] && b == [b[0]] + b[1..];
    }
  }

  lemma {:induction false} BelowIsTransitive(a: string, b: string, c: string)
    requires Below(a, b) && Below(b, c)
    ensures Below(a, c)
  {
    if a != "" && a[0] == b[0] == c[0] {
      BelowIsTransitive(a[1..], b[1..], c[1..]);
    }
  }

  lemma {:induction false} BelowIsIrreflexive(a: string)
    ensures !Below(a, a)
  {
    if a != "" {
      BelowIsIrreflexive(a[1..]);
    }
  }

  /** Ordered, and free of duplicates. */
  ghost predicate StrictlySorted(names: seq<string>) {
    forall i, j | 0 <= i < j < |names| :: Below(names[i], names[j])
  }

  function Insert(name: string, names: seq<string>): (r: seq<string>)
    ensures forall n :: n in r <==> n == name || n in names
  {
    if names == [] then [name]
    else if name == names[0] then names
    else if Below(name, names[0]) then [name] + names
    else
      var rest := Insert(name, names[1..]);
      assert names == [names[0]] + names[1..];
      [names[0]] + rest
  }

  lemma {:induction false} InsertKeepsSorted(name: string, names: seq<string>)
    requires StrictlySorted(names)
    ensures StrictlySorted(Insert(name, names))
  {
    if names != [] && name != names[0] {
      var r := Insert(name, names);
      if Below(name, names[0]) {
        forall j | 0 < j < |r| ensures Below(r[0], r[j]) {
          if j > 1 { BelowIsTransitive(name, names[0], r[j]); }
        }
      } else {
        BelowIsTotal(name, names[0]);
        InsertKeepsSorted(name, names[1..]);
        forall j | 0 < j < |r| ensures Below(r[0], r[j]) {
          assert r[j] in Insert(name, names[1..]);
          if r[j] != name {
            assert r[j] in names[1..];
          }
        }
      }
    }
  }

  /** `sorted(set(names))`. */
  function SortedSet(names: seq<string>): (r: seq<string>)
    ensures forall n :: n in r <==> n in names
  {
    if names == [] then [] else
      assert names == [names[0]] + names[1..];
      Insert(names[0], SortedSet(names[1..]))
  }

  lemma {:induction false} SortedSetIsSorted(names: seq<string>)
    ensures StrictlySorted(SortedSet(names))
  {
    if names != [] {
      SortedSetIsSorted(names[1..]);
      InsertKeepsSorted(names[0], SortedSet(names[1..]));
    }
  }

  /** A strictly sorted sequence is determined by its elements. */
  lemma {:induction false} SortedIsUnique(a: seq<string>, b: seq<string>)
    requires StrictlySorted(a) && StrictlySorted(b)
    requires forall n :: n in a <==> n in b
    ensures a == b
  {
    assert a != [] ==> a[0] in b;
    assert b != [] ==> b[0] in a;
    if a != [] && b != [] {
      if a[0] != b[0] {
        BelowIsTransitive(a[0], b[0], a[0]);
        BelowIsIrreflexive(a[0]);
      }
      forall n ensures n in a[1..] <==> n in b[1..] {
        BelowIsIrreflexive(a[0]);
        assert a == [a[0]] + a[1..] && b == [b[0]] + b[1..];
        assert n in a <==> n in b;
      }
      SortedIsUnique(a[1..], b[1..]);
      assert a == [a[0]] + a[1..] && b == [b[0]] + b[1..];
    }
  }

  /** Comparing a sequence with its `sorted(set(...))` tests that it is sorted and duplicate free. */
  lemma {:induction false} SortedSetFixpoint(names: seq<string>)
    ensures names == SortedSet(names) <==> StrictlySorted(names)
  {
    SortedSetIsSorted(names);
    if StrictlySorted(names) {
      SortedIsUnique(names, SortedSet(names));
    }
  }

  lemma SortedSetIsCanonical(a: seq<string>, b: seq<string>)
    requires forall n :: n in a <==> n in b
    ensures SortedSet(a) == SortedSet(b)
  {
    SortedSetIsSorted(a);
    SortedSetIsSorted(b);
    SortedIsUnique(SortedSet(a), SortedSet(b));
  }

  /** `text.split(":", 1)[0]`. */
  function BeforeColon(text: string): (r: string)
    ensures r <= text && ':' !in r
    ensures r == text || text[|r|] == ':'
  {
    if text == "" || text[0] == ':' then "" else [text[0]] + BeforeColon(text[1..])
  }

  /** A name without a colon is the job of a thread exactly if the thread is the name, or starts with it and a colon. */
  lemma {:induction false} JobOfThread(text: string, job: string)
    ensures BeforeColon(text) == job <==> ':' !in job && (text == job || job + ":" <= text)
  {
    if text == "" || text[0] == ':' {
      if job != "" && (text == job || job + ":" <= text) {
        assert text[0] == job[0];
      }
    } else if job == "" {
      assert BeforeColon(text)[0] == text[0];
    } else {
      JobOfThread(text[1..], job[1..]);
      assert text == [text[0]] + text[1..] && job == [job[0]] + job[1..];
      assert ':' in job <==> job[0] == ':' || ':' in job[1..];
      if text[0] == job[0] {
        assert job + ":" == [job[0]] + (job[1..] + ":");
        assert job + ":" <= text <==> job[1..] + ":" <= text[1..];
      }
    }
  }
}
