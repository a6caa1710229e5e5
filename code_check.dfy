/**
 * Classifying an entered code: four characters are a booking code looked
 * up in the table fetched from the booking server, eight characters are a
 * maintenance code (a two-digit compartment id followed by the configured
 * prefix), anything else is invalid.
 */
module CodeCheck {
  import opened Common

  datatype CodeStatus = Normal | Maintenance | Error | Invalid

  /** The fetched codes: for each compartment id, in table order, the codes valid for it. */
  type CodeTable = seq<(string, seq<string>)>

  /**
   * The answer of the booking server to a request for codes: its HTTP status
   * and, when the body could be read, the table. A request that raised is
   * a status other than 200 and no table.
   */
  datatype Fetch = Fetch(status: int, table: Option<CodeTable>)

  const OkStatus: int := 200
  const BookingCodeLength: nat := 4
  const MaintenanceCodeLength: nat := 8

  /** A classified code: the compartment id it opens, if any, and why. */
  datatype Verdict = Verdict(index: Option<string>, status: CodeStatus)

  /** The first compartment, from entry i of the table on, whose codes contain `code`. */
  function FirstHolder(table: CodeTable, code: string, i: nat): Option<string>
    decreases |table| - i
  {
    if i >= |table| then None
    else if code in table[i].1 then Some(table[i].0)
    else FirstHolder(table, code, i + 1)
  }

  /** No entry from i on contains the code: there is no holder. */
  lemma {:induction false} NoHolder(table: CodeTable, code: string, i: nat)
    requires forall j :: i <= j < |table| ==> code !in table[j].1
    ensures FirstHolder(table, code, i) == None
    decreases |table| - i
  {
    if i < |table| {
      NoHolder(table, code, i + 1);
    }
  }

  /** Entry j is the first from i on that contains the code: its compartment is the holder. */
  lemma {:induction false} FirstHolderAt(table: CodeTable, code: string, i: nat, j: nat)
    requires i <= j < |table| && code in table[j].1
    requires forall k :: i <= k < j ==> code !in table[k].1
    ensures FirstHolder(table, code, i) == Some(table[j].0)
    decreases j - i
  {
    if i < j {
      FirstHolderAt(table, code, i + 1, j);
    }
  }

  /**
   * `int(code[0:2])` only reads a maintenance code whose id part is
   * numeric; the keypad buffer holds digits only, so the main loop always
   * meets this.
   */
  predicate IdReadable(code: string, prefix: string)
  {
    |code| == MaintenanceCodeLength && code[2..] == prefix ==> AllDigits(code[..2])
  }

  /** A code of digits, such as the keypad buffer holds, always has a readable id part. */
  lemma DigitsReadable(code: string, prefix: string)
    requires AllDigits(code)
    ensures IdReadable(code, prefix)
  {
    if |code| == MaintenanceCodeLength {
      assert forall i :: 0 <= i < 2 ==> code[..2][i] == code[i];
    }
  }

  /** What `check_code` returns. */
  function CodeResult(code: string, prefix: string, fetch: Fetch): Verdict
    requires IdReadable(code, prefix)
  {
    if |code| == BookingCodeLength then
      if fetch.status != OkStatus then Verdict(None, Error)
      else if fetch.table.None? then Verdict(None, Invalid)
      else
        match FirstHolder(fetch.table.value, code, 0)
        case None => Verdict(None, Invalid)
        case Some(id) => Verdict(Some(id), Normal)
    else if |code| == MaintenanceCodeLength then
      if code[2..] == prefix then Verdict(Some(NatToString(DigitsValue(code[..2]))), Maintenance)
      else Verdict(None, Invalid)
    else Verdict(None, Invalid)
  }

  /**
   * `check_code`. The table is only consulted for a four-character code;
   * `fetch` is what the server would answer.
   */
  method CheckCode(code: string, prefix: string, fetch: Fetch) returns (index: Option<string>, status: CodeStatus)
    requires IdReadable(code, prefix)
    ensures Verdict(index, status) == CodeResult(code, prefix, fetch)
  {
    if |code| == BookingCodeLength {
      if fetch.status != OkStatus {
        return None, Error;
      }
      if fetch.table.Some? {
        var table := fetch.table.value;
        for i := 0 to |table|
          invariant FirstHolder(table, code, i) == FirstHolder(table, code, 0)
        {
          if code in table[i].1 {
            return Some(table[i].0), Normal;
          }
        }
      }
      return None, Invalid;
    } else if |code| == MaintenanceCodeLength {
      if code[2..] == prefix {
        var comp := DigitsValue(code[..2]);
        return Some(NatToString(comp)), Maintenance;
      } else {
        return None, Invalid;
      }
    } else {
      return None, Invalid;
    }
  }

  /** A code of any length but four or eight is invalid, whatever the server would say. */
  lemma WrongLengthInvalid(code: string, prefix: string, fetch: Fetch, other: Fetch)
    requires |code| != BookingCodeLength && |code| != MaintenanceCodeLength
    ensures CodeResult(code, prefix, fetch) == Verdict(None, Invalid)
    ensures CodeResult(code, prefix, fetch) == CodeResult(code, prefix, other)
  {
  }

  /**
   * An eight-character code never consults the server: with the prefix it
   * opens the id written in its first two digits, a leading zero dropped;
   * without it, it is invalid.
   */
  lemma MaintenanceCode(code: string, prefix: string, fetch: Fetch, other: Fetch)
    requires |code| == MaintenanceCodeLength && IdReadable(code, prefix)
    ensures CodeResult(code, prefix, fetch) == CodeResult(code, prefix, other)
    ensures code[2..] == prefix ==>
              CodeResult(code, prefix, fetch) == Verdict(Some(if code[0] == '0' then [code[1]] else code[..2]), Maintenance)
    ensures code[2..] != prefix ==> CodeResult(code, prefix, fetch) == Verdict(None, Invalid)
  {
    if code[2..] == prefix {
      TwoDigitCanonical(code[..2]);
    }
  }

  /** "07" followed by the prefix opens compartment "7"; "99" followed by it means every compartment. */
  lemma MaintenanceExamples(prefix: string, fetch: Fetch)
    requires |prefix| == 6
    ensures CodeResult("07" + prefix, prefix, fetch) == Verdict(Some("7"), Maintenance)
    ensures CodeResult("99" + prefix, prefix, fetch) == Verdict(Some("99"), Maintenance)
  {
    var seven, all := "07" + prefix, "99" + prefix;
    assert seven[2..] == prefix && seven[..2] == "07";
    assert all[2..] == prefix && all[..2] == "99";
    MaintenanceCode(seven, prefix, fetch, fetch);
    MaintenanceCode(all, prefix, fetch, fetch);
  }

  /**
   * A four-character code: an unsuccessful request is an error; otherwise
   * the code opens the first compartment, in table order, whose codes
   * contain it, and is invalid when there is none or no table.
   */
  lemma BookingCode(code: string, prefix: string, fetch: Fetch)
    requires |code| == BookingCodeLength
    ensures fetch.status != OkStatus ==> CodeResult(code, prefix, fetch) == Verdict(None, Error)
    ensures fetch.status == OkStatus && fetch.table.None? ==> CodeResult(code, prefix, fetch) == Verdict(None, Invalid)
    ensures fetch.status == OkStatus && fetch.table.Some? ==>
              var table := fetch.table.value;
              && ((forall j :: 0 <= j < |table| ==> code !in table[j].1) ==>
                    CodeResult(code, prefix, fetch) == Verdict(None, Invalid))
              && (forall j :: 0 <= j < |table| && code in table[j].1 && (forall k :: 0 <= k < j ==> code !in table[k].1) ==>
                    CodeResult(code, prefix, fetch) == Verdict(Some(table[j].0), Normal))
  {
    if fetch.status == OkStatus && fetch.table.Some? {
      var table := fetch.table.value;
      if forall j :: 0 <= j < |table| ==> code !in table[j].1 {
        NoHolder(table, code, 0);
      }
      forall j | 0 <= j < |table| && code in table[j].1 && (forall k :: 0 <= k < j ==> code !in table[k].1)
        ensures CodeResult(code, prefix, fetch) == Verdict(Some(table[j].0), Normal)
      {
        FirstHolderAt(table, code, 0, j);
      }
    }
  }

  /** An id is returned only with the status Normal or Maintenance, and always with them. */
  lemma VerdictConsistent(code: string, prefix: string, fetch: Fetch)
    requires IdReadable(code, prefix)
    ensures CodeResult(code, prefix, fetch).index.Some? <==>
              CodeResult(code, prefix, fetch).status in {Normal, Maintenance}
  {
  }
}
