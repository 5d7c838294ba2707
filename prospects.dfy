/**
 * The Prospects page: the fetched list of prospects, local removal after a
 * delete, and the search box that filters the list by name, email or company.
 */
module Prospects {
  import opened Wrappers
  import opened Backend
  import opened Seqs
  import opened Text

  datatype Prospect = Prospect(
    id: string,
    fullName: string,
    email: string,
    phone: string,
    company: string,
    stage: string,
    notes: string,
    createdAt: string,
    updatedAt: string)

  /** The stage badge classes, keyed by the five stage values the list knows. */
  const StageColors: map<string, string> := map[
    "new" := "bg-blue-100 text-blue-800",
    "contacted" := "bg-yellow-100 text-yellow-800",
    "qualified" := "bg-green-100 text-green-800",
    "proposal" := "bg-purple-100 text-purple-800",
    "closed" := "bg-gray-100 text-gray-800"]

  /** The list after a delete of `id`: every row with that id is gone, the rest keep their order. */
  function WithoutId(rows: seq<Prospect>, id: string): (r: seq<Prospect>)
    ensures IsSubsequence(r, rows)
    ensures forall p :: p in r <==> p in rows && p.id != id
    ensures |r| + CountId(rows, id) == |rows|
  {
    var keep := (p: Prospect) => p.id != id;
    FilterIsSubsequence(rows, keep);
    FilterSplit(rows, (p: Prospect) => p.id == id, keep);
    forall p ensures p in Filter(rows, keep) <==> p in rows && keep(p) {
      FilterMembership(rows, keep, p);
    }
    Filter(rows, keep)
  }

  /** The number of rows carrying `id`. */
  function CountId(rows: seq<Prospect>, id: string): nat
  {
    |Filter(rows, (p: Prospect) => p.id == id)|
  }

  /** Deleting an id no row carries leaves the list as it was. */
  lemma DeleteAbsentId(rows: seq<Prospect>, id: string)
    requires forall i :: 0 <= i < |rows| ==> rows[i].id != id
    ensures WithoutId(rows, id) == rows
  {
    FilterKeepsAll(rows, (p: Prospect) => p.id != id);
  }

  /** Deleting the same id twice is deleting it once. */
  lemma DeleteIdempotent(rows: seq<Prospect>, id: string)
    ensures WithoutId(WithoutId(rows, id), id) == WithoutId(rows, id)
  {
    FilterIdempotent(rows, (p: Prospect) => p.id != id);
  }

  /**
   * The search predicate: the lower-cased term occurs in the lower-cased
   * full name, email or company.
   */
  predicate MatchesSearch(p: Prospect, term: string)
    ensures MatchesSearch(p, term) <==>
      OccursIn(Lower(p.fullName), Lower(term)) || OccursIn(Lower(p.email), Lower(term)) ||
      OccursIn(Lower(p.company), Lower(term))
    ensures term == "" ==> MatchesSearch(p, term)
  {
    IncludesIffOccurs(Lower(p.fullName), Lower(term));
    IncludesIffOccurs(Lower(p.email), Lower(term));
    IncludesIffOccurs(Lower(p.company), Lower(term));
    Includes(Lower(p.fullName), Lower(term)) || Includes(Lower(p.email), Lower(term)) ||
    Includes(Lower(p.company), Lower(term))
  }

  /**
   * `filteredProspects`: the list with some rows taken out, in the same
   * order, keeping a row exactly when it matches the term.
   */
  function Search(rows: seq<Prospect>, term: string): (r: seq<Prospect>)
    ensures IsSubsequence(r, rows)
    ensures forall p :: p in r <==> p in rows && MatchesSearch(p, term)
  {
    var keep := (p: Prospect) => MatchesSearch(p, term);
    FilterIsSubsequence(rows, keep);
    forall p ensures p in Filter(rows, keep) <==> p in rows && keep(p) {
      FilterMembership(rows, keep, p);
    }
    Filter(rows, keep)
  }

  /** An empty search box shows every row. */
  lemma SearchEmptyTerm(rows: seq<Prospect>)
    ensures Search(rows, "") == rows
  {
    FilterKeepsAll(rows, (p: Prospect) => MatchesSearch(p, ""));
  }

  /** Terms that agree up to letter case give the same result. */
  lemma SearchIgnoresCase(rows: seq<Prospect>, t1: string, t2: string)
    requires Lower(t1) == Lower(t2)
    ensures Search(rows, t1) == Search(rows, t2)
  {
    FilterExtensional(rows, (p: Prospect) => MatchesSearch(p, t1), (p: Prospect) => MatchesSearch(p, t2));
  }

  /** Typing the term in upper case finds the same rows. */
  lemma SearchUpperCaseTerm(rows: seq<Prospect>, term: string)
    ensures Search(rows, Upper(term)) == Search(rows, term)
  {
    LowerOfUpper(term);
    SearchIgnoresCase(rows, Upper(term), term);
  }

  /** Typing more characters never brings back a row the shorter term hid. */
  lemma SearchNarrows(rows: seq<Prospect>, term: string, more: string, p: Prospect)
    requires p in Search(rows, term + more)
    ensures p in Search(rows, term)
  {
    LowerAppend(term, more);
    var t, m := Lower(term), Lower(more);
    if Includes(Lower(p.fullName), t + m) {
      IncludesPrefixOf(Lower(p.fullName), t, m);
    } else if Includes(Lower(p.email), t + m) {
      IncludesPrefixOf(Lower(p.email), t, m);
    } else {
      IncludesPrefixOf(Lower(p.company), t, m);
    }
  }

  /** The page's state: `prospects`, `loading` and `searchTerm`. */
  class ProspectsPage {
    var prospects: seq<Prospect>
    var loading: bool
    var searchTerm: string

    constructor ()
      ensures prospects == [] && loading && searchTerm == ""
    {
      prospects := [];
      loading := true;
      searchTerm := "";
    }

    /** The rows the table shows: the listed rows that match the search term, in list order. */
    function FilteredProspects(): (r: seq<Prospect>)
      reads this
      ensures IsSubsequence(r, prospects)
      ensures forall p :: p in r <==> p in prospects && MatchesSearch(p, searchTerm)
    {
      Search(prospects, searchTerm)
    }

    /**
     * `fetchProspects`, given the query's answer: the returned rows (none when
     * it returned no data) replace the list; an error leaves the list alone.
     * `loading` ends false on both paths.
     */
    method FetchProspects(response: Query<Prospect>)
      modifies this`prospects, this`loading
      ensures prospects == if response.error.None? then RowsOrEmpty(response.data) else old(prospects)
      ensures !loading
    {
      if response.error.None? {
        prospects := RowsOrEmpty(response.data);
      }
      loading := false;
    }

    /**
     * `handleDelete(id)`, given the backend's answer to the delete: on success
     * every row with that id leaves the list; on an error nothing changes.
     */
    method HandleDelete(id: string, deleteError: Option<string>)
      modifies this`prospects
      ensures prospects == if deleteError.None? then WithoutId(old(prospects), id) else old(prospects)
    {
      if deleteError.None? {
        prospects := WithoutId(prospects, id);
      }
    }

    /** The search box's `onChange`. */
    method SetSearchTerm(term: string)
      modifies this`searchTerm
      ensures searchTerm == term
    {
      searchTerm := term;
    }
  }
}
