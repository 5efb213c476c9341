/** The directory lookup (`buscar_dados_organograma`): resolves an e-mail to
    the leader, tribe and area recorded in the "Colaboradores" table. */
module Directory {
  import opened Wrappers
  import opened Text

  /** One row of the "Colaboradores" table, after its headers were
      normalised; the e-mail column itself is compared as stored. */
  datatype Employee = Employee(email: string, leader: string, tribe: string, area: string)

  /** The `{lider, tribo, area}` dictionary returned on a match. */
  datatype OrgData = OrgData(leader: string, tribe: string, area: string)

  /** A match, or the `erro` entry carrying a user-facing message. */
  datatype Lookup = Found(data: OrgData) | NotFound(message: string)

  function NotFoundMessage(email: string): string
  {
    "Email '" + email + "' não encontrado na aba Colaboradores"
  }

  /** Row `i` is the first row whose e-mail column equals `key`. */
  predicate IsFirstMatch(rows: seq<Employee>, key: string, i: int)
  {
    && 0 <= i < |rows|
    && rows[i].email == key
    && forall j :: 0 <= j < i ==> rows[j].email != key
  }

  function FirstMatch(rows: seq<Employee>, key: string): (r: Option<nat>)
    ensures r.None? <==> forall i :: 0 <= i < |rows| ==> rows[i].email != key
    ensures r.Some? ==> IsFirstMatch(rows, key, r.value)
  {
    if |rows| == 0 then None
    else if rows[0].email == key then Some(0)
    else match FirstMatch(rows[1..], key)
      case None => None
      case Some(i) => Some(i + 1)
  }

  /** `buscar_dados_organograma`: normalise the queried e-mail, then take the
      first table row whose e-mail equals it. */
  function LookupEmployee(rows: seq<Employee>, query: string): (r: Lookup)
    ensures r.NotFound? <==> forall i :: 0 <= i < |rows| ==> rows[i].email != Normalize(query)
    ensures r.NotFound? ==> r.message == NotFoundMessage(Normalize(query))
    ensures r.Found? ==> exists i :: IsFirstMatch(rows, Normalize(query), i)
                          && r.data == OrgData(rows[i].leader, rows[i].tribe, rows[i].area)
  {
    var email := Normalize(query);
    match FirstMatch(rows, email)
    case None => NotFound(NotFoundMessage(email))
    case Some(i) => Found(OrgData(rows[i].leader, rows[i].tribe, rows[i].area))
  }

  /** Queries that differ only in letter case or surrounding whitespace
      resolve identically. */
  lemma LookupIgnoresCaseAndPadding(rows: seq<Employee>, query: string, query': string, p: string, q: string)
    requires EqualIgnoringCase(query, query')
    requires AllSpace(p) && AllSpace(q)
    ensures LookupEmployee(rows, p + query' + q) == LookupEmployee(rows, query)
  {
    NormalizeIgnoresCaseAndPadding(query, query', p, q);
  }

  /** Looking up an already normalised e-mail is the same as looking up the
      raw query. */
  lemma LookupOfNormalizedQuery(rows: seq<Employee>, query: string)
    ensures LookupEmployee(rows, Normalize(query)) == LookupEmployee(rows, query)
  {
    NormalizeIdempotent(query);
  }

  /** Rows after the first match never influence the result, and a table
      with a matching row is found whatever rows follow it. */
  lemma {:induction false} LookupIgnoresLaterRows(rows: seq<Employee>, more: seq<Employee>, query: string)
    requires exists i :: 0 <= i < |rows| && rows[i].email == Normalize(query)
    ensures LookupEmployee(rows + more, query) == LookupEmployee(rows, query)
  {
    var key := Normalize(query);
    var i :| 0 <= i < |rows| && rows[i].email == key;
    var all := rows + more;
    assert forall m :: 0 <= m < |rows| ==> all[m] == rows[m];
    assert FirstMatch(all, key).value == FirstMatch(rows, key).value;
  }
}
