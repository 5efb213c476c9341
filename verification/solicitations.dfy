/** The open-request resolver (`load_opened_solicitations`): replays the
    append-only log of form answers and returns the vacation requests of
    one employee that no later cancellation has closed. */
module Solicitations {
  import opened Wrappers
  import opened Text
  import opened Seqs
  import opened BusinessDays

  /** The parsed "Carimbo de data/hora" column. */
  type Timestamp = int

  /** A date cell of the sheet; `None` is an empty cell. */
  type Cell = Option<Day>

  /** The two values of the "Você quer fazer" column, compared after
      stripping surrounding whitespace (no case folding). */
  const RequestLabel := "Solicitação"
  const CancellationLabel := "Cancelamento"

  /** One answer of the vacation form, as a row of the response sheet. */
  datatype FormRow = FormRow(
    stamp: Timestamp,      // Carimbo de data/hora
    email: string,         // Endereço de e-mail
    action: string,        // Você quer fazer
    leaveStart: Cell,      // Data do primeiro dia de saída
    leaveReturn: Cell,     // Data de retorno as atividades
    previousStart: Cell,   // Informe a data de saída solicitada anteriormente:
    previousReturn: Cell)  // Informe a data de retorno solicitada anteriormente:

  /** The four columns both tables are reduced to: timestamp, email, saida,
      retorno. */
  datatype Entry = Entry(stamp: Timestamp, email: string, start: Cell, back: Cell)

  /** A cell compared with `> now`; an empty cell is never later. */
  predicate StartsAfter(c: Cell, today: Day)
  {
    c.Some? && c.value > today
  }

  /** The first query: exact e-mail match, and one of the two start-date
      columns strictly after today. */
  predicate Relevant(r: FormRow, email: string, today: Day)
  {
    r.email == email && (StartsAfter(r.previousStart, today) || StartsAfter(r.leaveStart, today))
  }

  predicate IsRequestRow(r: FormRow)
  {
    Strip(r.action) == RequestLabel
  }

  predicate IsCancellationRow(r: FormRow)
  {
    Strip(r.action) == CancellationLabel
  }

  /** A request keeps its requested dates... */
  function RequestEntry(r: FormRow): Entry
  {
    Entry(r.stamp, r.email, r.leaveStart, r.leaveReturn)
  }

  /** ...a cancellation the dates of the request it cancels. */
  function CancellationEntry(r: FormRow): Entry
  {
    Entry(r.stamp, r.email, r.previousStart, r.previousReturn)
  }

  /** The `by=['email', 'saida', 'retorno']` key of the join. */
  predicate SameKey(a: Entry, b: Entry)
  {
    a.email == b.email && a.start == b.start && a.back == b.back
  }

  /** Cancellation `c` closes request `x`: same key, at or after it. */
  predicate Closes(c: Entry, x: Entry)
  {
    SameKey(c, x) && c.stamp >= x.stamp
  }

  predicate SortedByStamp(s: seq<Entry>)
  {
    forall i, j :: 0 <= i < j < |s| ==> s[i].stamp <= s[j].stamp
  }

  // ---------------------------------------------------------------------
  // sort_values('timestamp')

  /** Putting an element no later than any other in front keeps the order. */
  lemma PrependSorted(h: Entry, s: seq<Entry>)
    requires SortedByStamp(s)
    requires forall y :: y in s ==> h.stamp <= y.stamp
    ensures SortedByStamp([h] + s)
  {
    var r := [h] + s;
    forall i, j | 0 <= i < j < |r| ensures r[i].stamp <= r[j].stamp {
      assert r[j] == s[j - 1];
      if i > 0 { assert r[i] == s[i - 1]; }
    }
  }

  lemma PrependNoDuplicates<T>(h: T, s: seq<T>)
    requires NoDuplicates(s) && h !in s
    ensures NoDuplicates([h] + s)
  {
    var r := [h] + s;
    forall i, j | 0 <= i < j < |r| ensures r[i] != r[j] {
      assert r[j] == s[j - 1];
      if i > 0 { assert r[i] == s[i - 1]; }
    }
  }

  function Insert(x: Entry, s: seq<Entry>): (r: seq<Entry>)
    requires SortedByStamp(s)
    ensures SortedByStamp(r)
    ensures multiset(r) == multiset(s) + multiset{x}
  {
    if |s| == 0 || x.stamp <= s[0].stamp then
      PrependSorted(x, s);
      [x] + s
    else
      var rest := Insert(x, s[1..]);
      assert s == [s[0]] + s[1..];
      assert forall y :: y in rest ==> s[0].stamp <= y.stamp by {
        forall y | y in rest ensures s[0].stamp <= y.stamp {
          assert y in multiset(rest);
          if y != x {
            var k :| 0 <= k < |s[1..]| && s[1..][k] == y;
            assert s[k + 1] == y;
          }
        }
      }
      PrependSorted(s[0], rest);
      [s[0]] + rest
  }

  lemma {:induction false} InsertKeepsNoDuplicates(x: Entry, s: seq<Entry>)
    requires SortedByStamp(s)
    requires NoDuplicates(s) && x !in s
    ensures NoDuplicates(Insert(x, s))
  {
    if |s| == 0 || x.stamp <= s[0].stamp {
      PrependNoDuplicates(x, s);
    } else {
      var tail := s[1..];
      assert s == [s[0]] + tail;
      assert NoDuplicates(tail) by {
        forall i, j | 0 <= i < j < |tail| ensures tail[i] != tail[j] {
          assert tail[i] == s[i + 1] && tail[j] == s[j + 1];
        }
      }
      assert SortedByStamp(tail) by {
        forall i, j | 0 <= i < j < |tail| ensures tail[i].stamp <= tail[j].stamp {
          assert tail[i] == s[i + 1] && tail[j] == s[j + 1];
        }
      }
      InsertKeepsNoDuplicates(x, tail);
      var rest := Insert(x, tail);
      assert s[0] !in tail by {
        forall k | 0 <= k < |tail| ensures tail[k] != s[0] {
          assert tail[k] == s[k + 1];
        }
      }
      assert s[0] !in rest by {
        assert s[0] in rest <==> s[0] in multiset(tail) + multiset{x};
      }
      PrependNoDuplicates(s[0], rest);
    }
  }

  function SortByStamp(s: seq<Entry>): (r: seq<Entry>)
    ensures SortedByStamp(r)
    ensures multiset(r) == multiset(s)
    ensures NoDuplicates(s) ==> NoDuplicates(r)
  {
    if |s| == 0 then []
    else
      assert s == [s[0]] + s[1..];
      var rest := SortByStamp(s[1..]);
      assert NoDuplicates(s) ==> s[0] !in s[1..] && NoDuplicates(s[1..]) by {
        if NoDuplicates(s) {
          assert forall j :: 0 <= j < |s| - 1 ==> s[1..][j] == s[j + 1];
        }
      }
      assert s[0] in rest <==> s[0] in multiset(s[1..]);
      assert NoDuplicates(s) ==> NoDuplicates(Insert(s[0], rest)) by {
        if NoDuplicates(s) { InsertKeepsNoDuplicates(s[0], rest); }
      }
      Insert(s[0], rest)
  }

  // ---------------------------------------------------------------------
  // merge_asof(direction='forward') and query('flag_canc.isna()')

  /** The right-hand row `merge_asof` attaches to `x`: the first cancellation,
      in table order, with the same key and a timestamp at or after `x`'s. */
  function AsofMatch(x: Entry, right: seq<Entry>): (m: Option<Entry>)
    ensures m.None? <==> forall c :: c in right ==> !Closes(c, x)
    ensures m.Some? ==> m.value in right && Closes(m.value, x)
  {
    if |right| == 0 then None
    else if Closes(right[0], x) then Some(right[0])
    else
      assert forall c :: c in right <==> c == right[0] || c in right[1..] by {
        assert right == [right[0]] + right[1..];
      }
      AsofMatch(x, right[1..])
  }

  /** On a table sorted by timestamp the attached cancellation is the
      nearest one forward in time. */
  lemma {:induction false} AsofMatchIsNearest(x: Entry, right: seq<Entry>)
    requires SortedByStamp(right)
    ensures var m := AsofMatch(x, right);
      m.Some? ==> forall c :: c in right && Closes(c, x) ==> m.value.stamp <= c.stamp
  {
    if |right| > 0 && !Closes(right[0], x) {
      var tail := right[1..];
      assert SortedByStamp(tail) by {
        forall i, j | 0 <= i < j < |tail| ensures tail[i].stamp <= tail[j].stamp {
          assert tail[i] == right[i + 1] && tail[j] == right[j + 1];
        }
      }
      AsofMatchIsNearest(x, tail);
      assert forall c :: c in right && c != right[0] ==> c in tail by {
        assert right == [right[0]] + tail;
      }
    } else if |right| > 0 {
      assert forall c :: c in right ==> right[0].stamp <= c.stamp by {
        forall c | c in right ensures right[0].stamp <= c.stamp {
          var k :| 0 <= k < |right| && right[k] == c;
        }
      }
    }
  }

  /** The left rows left without a match after the join. */
  function MergeAsofOpen(left: seq<Entry>, right: seq<Entry>): (open: seq<Entry>)
    ensures forall x :: x in open <==> x in left && AsofMatch(x, right).None?
    ensures NoDuplicates(left) ==> NoDuplicates(open)
    ensures SortedByStamp(left) ==> SortedByStamp(open)
  {
    var keep := (x: Entry) => AsofMatch(x, right).None?;
    var open := Filter(left, keep);
    assert NoDuplicates(left) ==> NoDuplicates(open) by {
      if NoDuplicates(left) { FilterKeepsNoDuplicates(left, keep); }
    }
    assert SortedByStamp(left) ==> SortedByStamp(open) by {
      if SortedByStamp(left) {
        var R := (a: Entry, b: Entry) => a.stamp <= b.stamp;
        assert Ordered(left, R);
        FilterKeepsOrder(left, keep, R);
        assert Ordered(open, R);
      }
    }
    open
  }

  // ---------------------------------------------------------------------
  // The pipeline

  function RelevantRows(rows: seq<FormRow>, email: string, today: Day): seq<FormRow>
  {
    Filter(rows, (r: FormRow) => Relevant(r, email, today))
  }

  /** `df_solicitations`: request rows, projected, deduplicated, sorted. */
  function RequestTable(rows: seq<FormRow>, email: string, today: Day): seq<Entry>
  {
    SortByStamp(Dedupe(Map(Filter(RelevantRows(rows, email, today), IsRequestRow), RequestEntry)))
  }

  /** `df_canc`: cancellation rows, projected, deduplicated, sorted. */
  function CancellationTable(rows: seq<FormRow>, email: string, today: Day): seq<Entry>
  {
    SortByStamp(Dedupe(Map(Filter(RelevantRows(rows, email, today), IsCancellationRow), CancellationEntry)))
  }

  /** `load_opened_solicitations(email)` with the sheet and today's date as
      parameters: the open requests, without repetitions, by timestamp. */
  function LoadOpenedSolicitations(rows: seq<FormRow>, email: string, today: Day): (open: seq<Entry>)
    ensures NoDuplicates(open)
    ensures SortedByStamp(open)
  {
    MergeAsofOpen(RequestTable(rows, email, today), CancellationTable(rows, email, today))
  }

  // ---------------------------------------------------------------------
  // What the replay means

  /** `x` is the request entry of a relevant request row of the log. */
  ghost predicate LoggedRequest(rows: seq<FormRow>, email: string, today: Day, x: Entry)
  {
    exists r :: r in rows && Relevant(r, email, today) && IsRequestRow(r) && RequestEntry(r) == x
  }

  /** Some relevant cancellation row of the log closes `x`. */
  ghost predicate LoggedClosing(rows: seq<FormRow>, email: string, today: Day, x: Entry)
  {
    exists r :: r in rows && Relevant(r, email, today) && IsCancellationRow(r) && Closes(CancellationEntry(r), x)
  }

  lemma RequestTableMembers(rows: seq<FormRow>, email: string, today: Day, x: Entry)
    ensures x in RequestTable(rows, email, today) <==> LoggedRequest(rows, email, today, x)
  {
    var kept := Filter(RelevantRows(rows, email, today), IsRequestRow);
    var mapped := Map(kept, RequestEntry);
    assert x in RequestTable(rows, email, today) <==> x in multiset(Dedupe(mapped));
    assert x in Dedupe(mapped) <==> x in mapped;
    if x in mapped {
      var r :| r in kept && RequestEntry(r) == x;
      assert r in rows && Relevant(r, email, today) && IsRequestRow(r);
    }
    if LoggedRequest(rows, email, today, x) {
      var r :| r in rows && Relevant(r, email, today) && IsRequestRow(r) && RequestEntry(r) == x;
      assert r in kept;
    }
  }

  lemma CancellationTableMembers(rows: seq<FormRow>, email: string, today: Day, c: Entry)
    ensures c in CancellationTable(rows, email, today)
        <==> exists r :: r in rows && Relevant(r, email, today) && IsCancellationRow(r) && CancellationEntry(r) == c
  {
    var kept := Filter(RelevantRows(rows, email, today), IsCancellationRow);
    var mapped := Map(kept, CancellationEntry);
    assert c in CancellationTable(rows, email, today) <==> c in multiset(Dedupe(mapped));
    assert c in Dedupe(mapped) <==> c in mapped;
    if c in mapped {
      var r :| r in kept && CancellationEntry(r) == c;
      assert r in rows && Relevant(r, email, today) && IsCancellationRow(r);
    }
    if exists r :: r in rows && Relevant(r, email, today) && IsCancellationRow(r) && CancellationEntry(r) == c {
      var r :| r in rows && Relevant(r, email, today) && IsCancellationRow(r) && CancellationEntry(r) == c;
      assert r in kept;
    }
  }

  /** A request is open exactly when it is a relevant request of the log
      that no relevant cancellation with the same key, at or after it,
      closes. */
  lemma OpenIffNotClosed(rows: seq<FormRow>, email: string, today: Day, x: Entry)
    ensures x in LoadOpenedSolicitations(rows, email, today)
        <==> LoggedRequest(rows, email, today, x) && !LoggedClosing(rows, email, today, x)
  {
    var cancellations := CancellationTable(rows, email, today);
    RequestTableMembers(rows, email, today, x);
    if LoggedClosing(rows, email, today, x) {
      var r :| r in rows && Relevant(r, email, today) && IsCancellationRow(r) && Closes(CancellationEntry(r), x);
      CancellationTableMembers(rows, email, today, CancellationEntry(r));
      assert !(AsofMatch(x, cancellations).None?);
    } else {
      forall c | c in cancellations ensures !Closes(c, x) {
        CancellationTableMembers(rows, email, today, c);
      }
    }
  }

  /** Only rows of the queried e-mail, compared verbatim, can be open. */
  lemma OpenRequestsMatchEmailExactly(rows: seq<FormRow>, email: string, today: Day, x: Entry)
    ensures x in LoadOpenedSolicitations(rows, email, today) ==>
      && x.email == email
      && (|| StartsAfter(x.start, today)
          || exists r :: r in rows && IsRequestRow(r) && RequestEntry(r) == x && StartsAfter(r.previousStart, today))
  {
    OpenIffNotClosed(rows, email, today, x);
  }

  /** One cancellation closes every same-key request at or before it, not
      only the latest one. */
  lemma CancellationClosesAllEarlier(rows: seq<FormRow>, email: string, today: Day, c: FormRow, x: Entry)
    requires c in rows && Relevant(c, email, today) && IsCancellationRow(c)
    requires SameKey(CancellationEntry(c), x) && x.stamp <= c.stamp
    ensures x !in LoadOpenedSolicitations(rows, email, today)
  {
    OpenIffNotClosed(rows, email, today, x);
  }

  /** A cancellation strictly before a request never closes it. */
  lemma EarlierCancellationsDoNotClose(rows: seq<FormRow>, email: string, today: Day, r: FormRow)
    requires r in rows && Relevant(r, email, today) && IsRequestRow(r)
    requires forall c :: (c in rows && Relevant(c, email, today) && IsCancellationRow(c)
                          && SameKey(CancellationEntry(c), RequestEntry(r))) ==> c.stamp < r.stamp
    ensures RequestEntry(r) in LoadOpenedSolicitations(rows, email, today)
  {
    OpenIffNotClosed(rows, email, today, RequestEntry(r));
  }

  /** Appending a relevant cancellation closes exactly the same-key requests
      at or before it; every other request keeps its state. */
  lemma AppendingCancellation(rows: seq<FormRow>, email: string, today: Day, c: FormRow, x: Entry)
    requires Relevant(c, email, today) && IsCancellationRow(c)
    ensures x in LoadOpenedSolicitations(rows + [c], email, today)
        <==> x in LoadOpenedSolicitations(rows, email, today) && !Closes(CancellationEntry(c), x)
  {
    var rows' := rows + [c];
    assert forall r :: r in rows' <==> r in rows || r == c;
    OpenIffNotClosed(rows, email, today, x);
    OpenIffNotClosed(rows', email, today, x);
    assert !IsRequestRow(c);
    if LoggedRequest(rows', email, today, x) {
      var r :| r in rows' && Relevant(r, email, today) && IsRequestRow(r) && RequestEntry(r) == x;
      assert r in rows;
    }
    if LoggedClosing(rows', email, today, x) && !Closes(CancellationEntry(c), x) {
      var r :| r in rows' && Relevant(r, email, today) && IsCancellationRow(r) && Closes(CancellationEntry(r), x);
      assert r in rows;
    }
  }

  /** A log holding one relevant request and nothing else has exactly
      that request open. */
  lemma SingleRequestIsOpen(row: FormRow, email: string, today: Day)
    requires Relevant(row, email, today) && IsRequestRow(row)
    ensures LoadOpenedSolicitations([row], email, today) == [RequestEntry(row)]
  {
    var entry := RequestEntry(row);
    assert !IsCancellationRow(row);
    forall x ensures x in LoadOpenedSolicitations([row], email, today) <==> x == entry {
      OpenIffNotClosed([row], email, today, x);
    }
    OnlyMember(LoadOpenedSolicitations([row], email, today), entry);
  }

  /** Rows that fail the e-mail or date filter leave the result unchanged,
      order included. */
  lemma IrrelevantRowsChangeNothing(rows: seq<FormRow>, more: seq<FormRow>, email: string, today: Day)
    requires forall r :: r in more ==> !Relevant(r, email, today)
    ensures LoadOpenedSolicitations(rows + more, email, today) == LoadOpenedSolicitations(rows, email, today)
  {
    var keep := (r: FormRow) => Relevant(r, email, today);
    FilterConcat(rows, more, keep);
    FilterKeepsNothing(more, keep);
    assert RelevantRows(rows + more, email, today) == RelevantRows(rows, email, today);
  }
}
