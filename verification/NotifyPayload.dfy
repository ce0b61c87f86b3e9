/** The text that travels with a `connector_delivery` notification: delivery ids joined by commas. */
module NotifyPayload {
  /** A delivery id in text form: not empty and free of commas (it is a decimal number). */
  predicate IsId(id: string) { id != "" && ',' !in id }

  /** `','.join(ids)`. */
  function Join(ids: seq<string>): string {
    if ids == [] then "" else if |ids| == 1 then ids[0] else ids[0] + "," + Join(ids[1..])
  }

  /** `payload.split(',')`. */
  function Split(payload: string): (parts: seq<string>)
    ensures parts != []
  {
    if payload == "" then [""] else
    var rest := Split(payload[1..]);
    if payload[0] == ',' then [""] + rest else [[payload[0]] + rest[0]] + rest[1..]
  }

  function NonEmpty(parts: seq<string>): seq<string> {
    if parts == [] then [] else (if parts[0] == "" then [] else [parts[0]]) + NonEmpty(parts[1..])
  }

  /** The ids the listener takes from a payload. */
  function Ids(payload: string): seq<string> { NonEmpty(Split(payload)) }

  lemma {:induction false} SplitAtComma(id: string, rest: string)
    requires ',' !in id
    ensures Split(id + "," + rest) == [id] + Split(rest)
  {
    if id == "" {
      assert id + "," + rest == "," + rest;
    } else {
      var payload := id + "," + rest;
      assert payload[1..] == id[1..] + "," + rest;
      SplitAtComma(id[1..], rest);
      assert [id[0]] + id[1..] == id;
      assert ([id[1..]] + Split(rest))[1..] == Split(rest);
    }
  }

  lemma {:induction false} SplitWhole(id: string)
    requires ',' !in id
    ensures Split(id) == [id]
  {
    if id != "" {
      SplitWhole(id[1..]);
      assert [id[0]] + id[1..] == id;
    }
  }

  /** Splitting undoes joining, whatever the number of ids, none included. */
  lemma {:induction false} IdsOfJoin(ids: seq<string>)
    requires forall id :: id in ids ==> IsId(id)
    ensures Ids(Join(ids)) == ids
  {
    assert ids != [] ==> ids[0] in ids;
    if |ids| == 1 {
      SplitWhole(ids[0]);
      assert NonEmpty([ids[0]]) == [ids[0]];
    } else if |ids| > 1 {
      SplitAtComma(ids[0], Join(ids[1..]));
      IdsOfJoin(ids[1..]);
      var parts := [ids[0]] + Split(Join(ids[1..]));
      assert parts[1..] == Split(Join(ids[1..]));
      assert NonEmpty(parts) == [ids[0]] + ids[1..];
    }
  }
}
