/**
 * The search box both admin screens share: a row is kept when one of the fields the screen
 * searches, lower-cased, includes the lower-cased query (`toLowerCase().includes(...)` joined
 * by `||`), and the kept rows stay in their original order (`filter`). Each screen supplies
 * the fields it searches.
 */
module SearchBox {
  import opened Collections
  import opened Text

  /** Some searched field of the row, lower-cased, includes the lower-cased query. */
  predicate Hit<T>(fields: T -> seq<string>, query: string, row: T)
  {
    exists i :: 0 <= i < |fields(row)| && Contains(ToLower(fields(row)[i]), ToLower(query))
  }

  function HitsQuery<T>(fields: T -> seq<string>, query: string): T -> bool
  {
    (row: T) => Hit(fields, query, row)
  }

  /** The rows the screen lists for a query: only hits, and every hit. */
  function Search<T>(rows: seq<T>, fields: T -> seq<string>, query: string): (r: seq<T>)
    ensures |r| <= |rows|
    ensures forall i :: 0 <= i < |r| ==> r[i] in rows && Hit(fields, query, r[i])
    ensures forall i :: 0 <= i < |rows| && Hit(fields, query, rows[i]) ==> rows[i] in r
  {
    FilterComplete(rows, HitsQuery(fields, query));
    Filter(rows, HitsQuery(fields, query))
  }

  /** Searching a split list searches each part, in order: the search never reorders rows. */
  lemma SearchConcat<T>(a: seq<T>, b: seq<T>, fields: T -> seq<string>, query: string)
    ensures Search(a + b, fields, query) == Search(a, fields, query) + Search(b, fields, query)
  {
    FilterConcat(a, b, HitsQuery(fields, query));
  }

  /** A single row is listed exactly when it is a hit. */
  lemma SearchOne<T>(row: T, fields: T -> seq<string>, query: string)
    ensures Search([row], fields, query) == if Hit(fields, query, row) then [row] else []
  {
    FilterOne(row, HitsQuery(fields, query));
  }

  /** An empty query lists every row, in order, when every row has a field to search. */
  lemma EmptyQueryKeepsAll<T>(rows: seq<T>, fields: T -> seq<string>)
    requires forall i :: 0 <= i < |rows| ==> |fields(rows[i])| > 0
    ensures Search(rows, fields, "") == rows
  {
    forall i | 0 <= i < |rows|
      ensures HitsQuery(fields, "")(rows[i])
    {
      ContainsEmpty(ToLower(fields(rows[i])[0]));
    }
    FilterKeepsAll(rows, HitsQuery(fields, ""));
  }

  /** The search ignores the case of the query. */
  lemma SearchIgnoresQueryCase<T>(rows: seq<T>, fields: T -> seq<string>, query: string)
    ensures Search(rows, fields, ToLower(query)) == Search(rows, fields, query)
  {
    ToLowerIdempotent(query);
    FilterSameOn(rows, HitsQuery(fields, ToLower(query)), HitsQuery(fields, query));
  }
}
