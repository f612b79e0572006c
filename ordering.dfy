/**
 * The `Ordering` filter of the stixifier views: the `sort` query parameter
 * takes tokens `<field>_ascending` / `<field>_descending`, mapped to the
 * ordering terms `<label>` / `-<label>` of the view's valid fields.
 */
module Ordering {
  import opened Wrappers
  import opened Text

  const AscendingSuffix: string := "_ascending"
  const DescendingSuffix: string := "_descending"

  /** A valid field as the view lists it: the name used in tokens and the ordering term it stands for. */
  type ValidField = (string, string)

  /** The mapping built from the valid fields in order; a later field with the same name overwrites an earlier one. */
  function OrderingMapping(valid: seq<ValidField>): map<string, string>
    decreases |valid|
  {
    if |valid| == 0 then map[]
    else
      var (k, v) := valid[|valid| - 1];
      OrderingMapping(valid[..|valid| - 1])[k + DescendingSuffix := "-" + v][k + AscendingSuffix := v]
  }

  /** `get_ordering_mapping(queryset, view)`. */
  method GetOrderingMapping(valid: seq<ValidField>) returns (mapping: map<string, string>)
    ensures mapping == OrderingMapping(valid)
  {
    mapping := map[];
    for i := 0 to |valid|
      invariant mapping == OrderingMapping(valid[..i])
    {
      assert valid[..i + 1][..i] == valid[..i];
      var (k, v) := valid[i];
      mapping := mapping[k + DescendingSuffix := "-" + v];
      mapping := mapping[k + AscendingSuffix := v];
    }
    assert valid[..|valid|] == valid;
  }

  /** A descending token is never an ascending one. */
  lemma SuffixesDiffer(k: string, k': string)
    ensures k + DescendingSuffix != k' + AscendingSuffix
  {
    var s := k + DescendingSuffix;
    var t := k' + AscendingSuffix;
    if |s| == |t| {
      assert s[|s| - 10] == DescendingSuffix[1];
      assert t[|t| - 10] == AscendingSuffix[0];
    }
  }

  /** Two tokens with the same suffix are equal only for the same field name. */
  lemma SuffixCancels(k: string, k': string, suffix: string)
    requires k + suffix == k' + suffix
    ensures k == k'
  {
    assert k == (k + suffix)[..|k|];
    assert k' == (k' + suffix)[..|k'|];
  }

  /** The mapping has exactly the two tokens of every valid field as keys. */
  lemma {:induction false} OrderingMappingKeys(valid: seq<ValidField>, token: string)
    ensures token in OrderingMapping(valid)
        <==> exists i :: 0 <= i < |valid| && (token == valid[i].0 + AscendingSuffix || token == valid[i].0 + DescendingSuffix)
    decreases |valid|
  {
    if |valid| > 0 {
      var init := valid[..|valid| - 1];
      OrderingMappingKeys(init, token);
      if exists i :: 0 <= i < |init| && (token == init[i].0 + AscendingSuffix || token == init[i].0 + DescendingSuffix) {
        var i :| 0 <= i < |init| && (token == init[i].0 + AscendingSuffix || token == init[i].0 + DescendingSuffix);
        assert valid[i] == init[i];
      }
      if exists i :: 0 <= i < |valid| && (token == valid[i].0 + AscendingSuffix || token == valid[i].0 + DescendingSuffix) {
        var i :| 0 <= i < |valid| && (token == valid[i].0 + AscendingSuffix || token == valid[i].0 + DescendingSuffix);
        if i < |init| {
          assert valid[i] == init[i];
        }
      }
    }
  }

  /**
   * A field that no later field overrides maps its ascending token to its
   * term and its descending token to the negated term.
   */
  lemma {:induction false} OrderingMappingValues(valid: seq<ValidField>, i: nat)
    requires i < |valid|
    requires forall j :: i < j < |valid| ==> valid[j].0 != valid[i].0
    ensures valid[i].0 + AscendingSuffix in OrderingMapping(valid)
    ensures valid[i].0 + DescendingSuffix in OrderingMapping(valid)
    ensures OrderingMapping(valid)[valid[i].0 + AscendingSuffix] == valid[i].1
    ensures OrderingMapping(valid)[valid[i].0 + DescendingSuffix] == "-" + valid[i].1
    decreases |valid|
  {
    var n := |valid| - 1;
    var (k, v) := valid[n];
    var (ki, vi) := valid[i];
    SuffixesDiffer(ki, k);
    SuffixesDiffer(k, ki);
    if i < n {
      var init := valid[..n];
      assert init[i] == valid[i];
      assert forall j :: i < j < |init| ==> init[j] == valid[j];
      OrderingMappingValues(init, i);
      if ki + AscendingSuffix == k + AscendingSuffix {
        SuffixCancels(ki, k, AscendingSuffix);
      }
      if ki + DescendingSuffix == k + DescendingSuffix {
        SuffixCancels(ki, k, DescendingSuffix);
      }
    }
  }

  // ---------------------------------------------------------------------------
  // get_ordering and get_default_ordering

  /** `view.ordering`: absent, a string, or anything else (a list or a tuple). */
  datatype ViewOrdering = NoOrdering | StringOrdering(s: string) | OtherOrdering

  /**
   * `get_default_ordering(view)`: the one-element ordering `(mapping.get(ordering),)`
   * for a string, where an unknown token gives `(None,)`; `None` otherwise.
   */
  function GetDefaultOrdering(view: ViewOrdering, mapping: map<string, string>): (r: Option<seq<Option<string>>>)
    ensures r.Some? <==> view.StringOrdering?
    ensures r.Some? ==> |r.value| == 1 && (r.value[0].Some? <==> view.s in mapping)
    ensures r.Some? && view.s in mapping ==> r.value[0] == Some(mapping[view.s])
  {
    match view
    case StringOrdering(s) => Some([if s in mapping then Some(mapping[s]) else None])
    case _ => None
  }

  /** The term of one token once stripped of surrounding whitespace, or nothing for an unknown token. */
  function TokenTerm(token: string, mapping: map<string, string>): (r: seq<string>)
    ensures |r| <= 1
    ensures |r| == 1 <==> Strip(token) in mapping
    ensures |r| == 1 ==> r[0] == mapping[Strip(token)]
  {
    var t := Strip(token);
    if t in mapping then [mapping[t]] else []
  }

  /** The terms of the recognised tokens, in the order given; unknown tokens are dropped. */
  function RecognisedTerms(tokens: seq<string>, mapping: map<string, string>): (r: seq<string>)
    decreases |tokens|
  {
    if |tokens| == 0 then []
    else TokenTerm(tokens[0], mapping) + RecognisedTerms(tokens[1..], mapping)
  }

  /** No term comes out exactly when no token is known; never more terms than tokens. */
  lemma {:induction false} RecognisedTermsEmpty(tokens: seq<string>, mapping: map<string, string>)
    ensures |RecognisedTerms(tokens, mapping)| <= |tokens|
    ensures (|RecognisedTerms(tokens, mapping)| == 0) <==> forall i :: 0 <= i < |tokens| ==> Strip(tokens[i]) !in mapping
    decreases |tokens|
  {
    if |tokens| > 0 {
      var rest := tokens[1..];
      RecognisedTermsEmpty(rest, mapping);
      if forall i :: 0 <= i < |rest| ==> Strip(rest[i]) !in mapping {
        if Strip(tokens[0]) !in mapping {
          forall i | 0 <= i < |tokens| ensures Strip(tokens[i]) !in mapping {
            if i > 0 { assert tokens[i] == rest[i - 1]; }
          }
        }
      } else {
        var i :| 0 <= i < |rest| && Strip(rest[i]) in mapping;
        assert tokens[i + 1] == rest[i];
      }
    }
  }

  /** Every term that comes out is the term of some known token. */
  lemma {:induction false} RecognisedTermsFrom(tokens: seq<string>, mapping: map<string, string>, t: string)
    requires t in RecognisedTerms(tokens, mapping)
    ensures exists i :: 0 <= i < |tokens| && Strip(tokens[i]) in mapping && t == mapping[Strip(tokens[i])]
    decreases |tokens|
  {
    var rest := tokens[1..];
    if !(Strip(tokens[0]) in mapping && t == mapping[Strip(tokens[0])]) {
      assert t in RecognisedTerms(rest, mapping);
      RecognisedTermsFrom(rest, mapping, t);
      var i :| 0 <= i < |rest| && Strip(rest[i]) in mapping && t == mapping[Strip(rest[i])];
      assert tokens[i + 1] == rest[i];
    }
  }

  /** Recognised tokens keep their order: the terms of `a + b` are those of `a` then those of `b`. */
  lemma {:induction false} RecognisedTermsAppend(a: seq<string>, b: seq<string>, mapping: map<string, string>)
    ensures RecognisedTerms(a + b, mapping) == RecognisedTerms(a, mapping) + RecognisedTerms(b, mapping)
    decreases |a|
  {
    if |a| == 0 {
      assert a + b == b;
    } else {
      var ab := a + b;
      assert ab[0] == a[0];
      assert ab[1..] == a[1..] + b;
      RecognisedTermsAppend(a[1..], b, mapping);
      assert RecognisedTerms(ab, mapping) == TokenTerm(a[0], mapping) + RecognisedTerms(a[1..] + b, mapping);
    }
  }

  /** Every term wrapped as a present ordering entry. */
  function Present(terms: seq<string>): (r: seq<Option<string>>)
    ensures |r| == |terms| && forall i :: 0 <= i < |r| ==> r[i] == Some(terms[i])
  {
    seq(|terms|, i requires 0 <= i < |terms| => Some(terms[i]))
  }

  /**
   * `get_ordering(request, queryset, view)`: the recognised tokens of the
   * comma-separated `sort` parameter mapped to their terms; the view's
   * default ordering when there is no `sort`, an empty one, or no
   * recognised token. The base class's check of terms against the valid
   * fields is taken to keep every term: it does when every valid field is
   * `(name, name)`, a plain field name used as its own ordering term.
   */
  function GetOrdering(sort: Option<string>, mapping: map<string, string>, view: ViewOrdering): (r: Option<seq<Option<string>>>)
  {
    if sort.Some? && sort.value != "" then
      var fields := RecognisedTerms(Split(sort.value, ','), mapping);
      if |fields| > 0 then Some(Present(fields))
      else GetDefaultOrdering(view, mapping)
    else GetDefaultOrdering(view, mapping)
  }

  /** With no `sort`, an empty one, or one with no known token, the ordering is the view's default. */
  lemma GetOrderingDefault(sort: Option<string>, mapping: map<string, string>, view: ViewOrdering)
    requires sort.None? || sort.value == "" || forall t :: t in Split(sort.value, ',') ==> Strip(t) !in mapping
    ensures GetOrdering(sort, mapping, view) == GetDefaultOrdering(view, mapping)
  {
    if sort.Some? && sort.value != "" {
      var tokens := Split(sort.value, ',');
      RecognisedTermsEmpty(tokens, mapping);
      forall i | 0 <= i < |tokens| ensures Strip(tokens[i]) !in mapping {
        assert tokens[i] in tokens;
      }
    }
  }

  /** A `sort` naming at least one known token orders by the terms of the known tokens, in order. */
  lemma GetOrderingRecognised(sort: string, mapping: map<string, string>, view: ViewOrdering, t: string)
    requires sort != "" && t in Split(sort, ',') && Strip(t) in mapping
    ensures GetOrdering(Some(sort), mapping, view) == Some(Present(RecognisedTerms(Split(sort, ','), mapping)))
    ensures |RecognisedTerms(Split(sort, ','), mapping)| > 0
  {
    var tokens := Split(sort, ',');
    RecognisedTermsEmpty(tokens, mapping);
    var i :| 0 <= i < |tokens| && tokens[i] == t;
  }

  /** A `sort` of one known token without surrounding whitespace orders by that token's term alone. */
  lemma SingleToken(token: string, mapping: map<string, string>, view: ViewOrdering)
    requires token in mapping && token != "" && ',' !in token
    requires !IsSpace(token[0]) && !IsSpace(token[|token| - 1])
    ensures GetOrdering(Some(token), mapping, view) == Some([Some(mapping[token])])
  {
    SplitFree(token, ',');
    StripUnspaced(token);
    assert [token][1..] == [];
    assert RecognisedTerms([token], mapping) == [mapping[token]];
    assert Present([mapping[token]]) == [Some(mapping[token])];
  }
}
