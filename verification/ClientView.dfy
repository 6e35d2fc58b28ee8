/** What clients of a key/value store are promised to read, said by positions: the last value put, followed
    by what was appended after it. */
module ClientView {

  datatype Write = NoWrite | PutTo(key: string, value: string) | AppendTo(key: string, value: string)

  predicate Puts(w: Write, key: string) {
    w.PutTo? && w.key == key
  }

  predicate Appends(w: Write, key: string) {
    w.AppendTo? && w.key == key
  }

  predicate Written(ws: seq<Write>, key: string) {
    exists j | 0 <= j < |ws| :: Puts(ws[j], key) || Appends(ws[j], key)
  }

  /** The position of the last put of the key, or -1. */
  function LastPut(ws: seq<Write>, key: string): (p: int)
    ensures -1 <= p < |ws| && (p >= 0 ==> Puts(ws[p], key))
    ensures forall j | p < j < |ws| :: !Puts(ws[j], key)
  {
    var n := |ws| - 1;
    if n < 0 || Puts(ws[n], key) then n else LastPut(ws[..n], key)
  }

  /** What is appended to the key from a position on. */
  function Appended(ws: seq<Write>, key: string, from: nat): string
    requires from <= |ws|
    decreases |ws| - from
  {
    if from == |ws| then ""
    else (if Appends(ws[from], key) then ws[from].value else "") + Appended(ws, key, from + 1)
  }

  function ValueOf(ws: seq<Write>, key: string): string {
    var p := LastPut(ws, key);
    (if p >= 0 then ws[p].value else "") + Appended(ws, key, p + 1)
  }

  lemma {:induction false} AppendedNext(ws: seq<Write>, w: Write, key: string, from: nat)
    requires from <= |ws|
    ensures Appended(ws + [w], key, from) == Appended(ws, key, from) + if Appends(w, key) then w.value else ""
    decreases |ws| - from
  {
    var all := ws + [w];
    if from < |ws| {
      AppendedNext(ws, w, key, from + 1);
      assert all[from] == ws[from];
    } else {
      assert all[from] == w && Appended(all, key, from + 1) == "";
    }
  }

  lemma LastPutNext(ws: seq<Write>, w: Write, key: string)
    ensures LastPut(ws + [w], key) == if Puts(w, key) then |ws| else LastPut(ws, key)
  {
    assert (ws + [w])[..|ws|] == ws;
  }

  /** One more write: a put replaces the value, an append extends it, anything else leaves it alone. */
  lemma ValueNext(ws: seq<Write>, w: Write, key: string)
    ensures ValueOf(ws + [w], key)
         == if Puts(w, key) then w.value else ValueOf(ws, key) + if Appends(w, key) then w.value else ""
  {
    LastPutNext(ws, w, key);
    if !Puts(w, key) {
      var p := LastPut(ws, key);
      AppendedNext(ws, w, key, p + 1);
      Joined(if p >= 0 then ws[p].value else "", Appended(ws, key, p + 1), if Appends(w, key) then w.value else "");
    }
  }

  lemma Joined(a: string, b: string, c: string)
    ensures a + (b + c) == a + b + c
  {
  }

  lemma WrittenNext(ws: seq<Write>, w: Write, key: string)
    ensures Written(ws + [w], key) <==> Written(ws, key) || Puts(w, key) || Appends(w, key)
  {
    var all := ws + [w];
    assert all[|ws|] == w;
    if Written(ws, key) {
      var j :| 0 <= j < |ws| && (Puts(ws[j], key) || Appends(ws[j], key));
      assert all[j] == ws[j];
    }
  }
}
