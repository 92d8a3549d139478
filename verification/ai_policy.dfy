/** Template assembly of the AI traffic policy: the JSON-looking value
    checks, the field-default templates (`applyDefaults`) and the prompt
    enrichment body (`applyPromptEnrichment`). Templates are kept as the
    `jsonKeys` map of a merge-JSON-keys body transformation: key to
    template text. */
module AiPolicy {
  import opened Common

  // ---------------------------------------------------------------------
  // String helpers with Go semantics.

  /** `hasJsonPrefix`: the value opens an object or an array. */
  function HasJsonPrefix(v: string): (r: bool)
    ensures r <==> |v| > 0 && (v[0] == '{' || v[0] == '[')
  {
    StartsWith(v, "{") || StartsWith(v, "[")
  }

  /** `hasJsonSuffix`: the value closes an object or an array. */
  function HasJsonSuffix(v: string): (r: bool)
    ensures r <==> |v| > 0 && (v[|v| - 1] == '}' || v[|v| - 1] == ']')
  {
    EndsWith(v, "}") || EndsWith(v, "]")
  }

  /** Go's `unicode.IsSpace`: the ASCII white space, NEL, NBSP and the
      Unicode space separators. */
  predicate IsSpace(c: char) {
    var n := c as int;
    || n == 0x20 || (0x09 <= n <= 0x0D) || n == 0x85 || n == 0xA0 || n == 0x1680
    || (0x2000 <= n <= 0x200A) || n == 0x2028 || n == 0x2029 || n == 0x202F
    || n == 0x205F || n == 0x3000
  }

  /** Number of leading white-space characters. */
  function LeadingSpaces(s: string): (k: nat)
    ensures k <= |s|
    ensures forall i :: 0 <= i < k ==> IsSpace(s[i])
    ensures k < |s| ==> !IsSpace(s[k])
  {
    if |s| == 0 || !IsSpace(s[0]) then 0 else 1 + LeadingSpaces(s[1..])
  }

  /** Number of trailing white-space characters. */
  function TrailingSpaces(s: string): (k: nat)
    ensures k <= |s|
    ensures forall i :: |s| - k <= i < |s| ==> IsSpace(s[i])
    ensures k < |s| ==> !IsSpace(s[|s| - k - 1])
  {
    if |s| == 0 || !IsSpace(s[|s| - 1]) then 0 else 1 + TrailingSpaces(s[..|s| - 1])
  }

  /** `strings.TrimSpace`: the slice of `s` between its leading and
      trailing white space; it is empty or starts and ends with a
      non-space. */
  function TrimSpace(s: string): (r: string)
    ensures exists i, j :: 0 <= i <= j <= |s| && r == s[i..j] &&
                           (forall k :: 0 <= k < i ==> IsSpace(s[k])) &&
                           (forall k :: j <= k < |s| ==> IsSpace(s[k]))
    ensures |r| > 0 ==> !IsSpace(r[0]) && !IsSpace(r[|r| - 1])
    ensures (forall k :: 0 <= k < |s| ==> !IsSpace(s[k])) ==> r == s
  {
    var t := s[LeadingSpaces(s)..];
    var r := t[..|t| - TrailingSpaces(t)];
    assert r == s[LeadingSpaces(s)..|s| - TrailingSpaces(t)];
    r
  }

  /** ASCII lower-casing of one character. */
  function LowerChar(c: char): char {
    if 'A' <= c <= 'Z' then (c as int + 32) as char else c
  }

  /** `strings.ToLower`, on the ASCII letters. */
  function ToLower(s: string): (r: string)
    ensures |r| == |s|
    ensures forall i :: 0 <= i < |s| ==> r[i] == LowerChar(s[i])
    ensures forall i :: 0 <= i < |r| ==> !('A' <= r[i] <= 'Z') && LowerChar(r[i]) == r[i]
  {
    seq(|s|, i requires 0 <= i < |s| => LowerChar(s[i]))
  }

  // ---------------------------------------------------------------------
  // Field defaults.

  /** One entry of the policy's `defaults`. */
  datatype FieldDefault = FieldDefault(field: string, value: string, override: bool)

  /** The JSON collaborators: `json.Marshal` of a string (which cannot
      fail) and `json.Valid`. */
  datatype Json = Json(marshal: string -> string, valid: string -> bool)

  /** A default whose trimmed value looks like JSON must be valid JSON. */
  predicate Rejected(json: Json, d: FieldDefault) {
    var v := TrimSpace(d.value);
    (HasJsonPrefix(v) || HasJsonSuffix(v)) && !json.valid(d.value)
  }

  function InvalidJsonMessage(d: FieldDefault): string {
    "field " + d.field + " contains invalid JSON string: " + d.value
  }

  /** The value a default contributes to its template: an object or array
      is used raw, anything else as its JSON encoding. */
  function InsertedValue(json: Json, d: FieldDefault): string {
    if HasJsonPrefix(TrimSpace(d.value)) then d.value else json.marshal(d.value)
  }

  /** The template stored for one default: with `override` the value
      itself; without it, the value only fills in a missing or falsey
      field. */
  function DefaultTemplate(json: Json, d: FieldDefault): string {
    if d.override then InsertedValue(json, d)
    else "{{ default(" + d.field + ", " + InsertedValue(json, d) + ") }}"
  }

  /** The pre-validation is what makes templates safe: a default that is
      not rejected always contributes valid JSON, given that `json.Marshal`
      of a string yields valid JSON. The raw value is used exactly when its
      trimmed form opens an object or array, and then it passed `json.Valid`. */
  lemma {:induction false} InsertedValueValid(json: Json, d: FieldDefault)
    requires !Rejected(json, d)
    requires json.valid(json.marshal(d.value))
    ensures json.valid(InsertedValue(json, d))
    ensures InsertedValue(json, d) == d.value <== HasJsonPrefix(TrimSpace(d.value))
    ensures !HasJsonPrefix(TrimSpace(d.value)) ==> InsertedValue(json, d) == json.marshal(d.value)
  {
    if HasJsonPrefix(TrimSpace(d.value)) {
      assert json.valid(d.value);
    }
  }

  /** Trimming starts at the first non-space character. */
  lemma {:induction false} TrimSpaceStartsAt(s: string, k: nat)
    requires k < |s| && !IsSpace(s[k])
    requires forall q :: 0 <= q < k ==> IsSpace(s[q])
    ensures |TrimSpace(s)| > 0 && TrimSpace(s)[0] == s[k]
  {
    var t := TrimSpace(s);
    var i, j :| 0 <= i <= j <= |s| && t == s[i..j] &&
                (forall q :: 0 <= q < i ==> IsSpace(s[q])) &&
                (forall q :: j <= q < |s| ==> IsSpace(s[q]));
    assert k < j by {
      if j <= k { assert false; }
    }
    assert i <= k by {
      if i > k { assert false; }
    }
    assert t[0] == s[i];
    assert i == k by {
      if i < k { assert false; }
    }
  }

  /** Leading white space does not hide JSON: a default whose first
      non-space character opens an object or array is rejected unless
      `json.Valid` accepts the value as written. */
  lemma {:induction false} ObjectLikeMustBeValid(json: Json, d: FieldDefault, k: nat)
    requires k < |d.value| && (d.value[k] == '{' || d.value[k] == '[')
    requires forall i :: 0 <= i < k ==> IsSpace(d.value[i])
    ensures Rejected(json, d) <==> !json.valid(d.value)
  {
    TrimSpaceStartsAt(d.value, k);
    assert HasJsonPrefix(TrimSpace(d.value));
  }

  /** `applyDefaults`: the defaults in order, each stored under its field
      (a later default for the same field replaces an earlier one); the
      first rejected default aborts. */
  function ApplyDefaults(json: Json, ds: seq<FieldDefault>, keys: map<string, string>)
    : (r: Result<map<string, string>>)
    ensures |ds| == 0 ==> r == Success(keys)
    decreases |ds|
  {
    if |ds| == 0 then Success(keys)
    else if Rejected(json, ds[0]) then Failure(InvalidJsonMessage(ds[0]))
    else ApplyDefaults(json, ds[1..], keys[ds[0].field := DefaultTemplate(json, ds[0])])
  }

  /** Reference: the last default naming `field`. */
  function LastFor(ds: seq<FieldDefault>, field: string): Option<FieldDefault> {
    if |ds| == 0 then None
    else if ds[|ds| - 1].field == field then Some(ds[|ds| - 1])
    else LastFor(ds[..|ds| - 1], field)
  }

  lemma {:induction false} LastForCons(d: FieldDefault, ds: seq<FieldDefault>, field: string)
    ensures LastFor([d] + ds, field) ==
              if LastFor(ds, field).Some? then LastFor(ds, field)
              else if d.field == field then Some(d) else None
    decreases |ds|
  {
    var s := [d] + ds;
    if |ds| > 0 {
      assert s[..|s| - 1] == [d] + ds[..|ds| - 1];
      LastForCons(d, ds[..|ds| - 1], field);
    } else {
      assert s[..0] == [];
    }
  }

  /** No default of `ds` is rejected. */
  predicate NoneRejected(json: Json, ds: seq<FieldDefault>) {
    forall i :: 0 <= i < |ds| ==> !Rejected(json, ds[i])
  }

  /** Defaults fail exactly when one of them is rejected. */
  lemma {:induction false} ApplyDefaultsFails(json: Json, ds: seq<FieldDefault>, keys: map<string, string>)
    ensures ApplyDefaults(json, ds, keys).Failure? <==> !NoneRejected(json, ds)
    decreases |ds|
  {
    if |ds| == 0 || Rejected(json, ds[0]) {
      return;
    }
    var tail := ds[1..];
    var keys' := keys[ds[0].field := DefaultTemplate(json, ds[0])];
    ApplyDefaultsFails(json, tail, keys');
    assert forall i :: 0 < i < |ds| ==> ds[i] == tail[i - 1];
  }

  /** A failure names the first rejected default. */
  lemma {:induction false} ApplyDefaultsFirstError(json: Json, ds: seq<FieldDefault>, keys: map<string, string>)
    requires !NoneRejected(json, ds)
    ensures ApplyDefaults(json, ds, keys).Failure?
    ensures exists i :: 0 <= i < |ds| && Rejected(json, ds[i]) && NoneRejected(json, ds[..i]) &&
                        ApplyDefaults(json, ds, keys).error == InvalidJsonMessage(ds[i])
    decreases |ds|
  {
    var k :| 0 <= k < |ds| && Rejected(json, ds[k]);
    if Rejected(json, ds[0]) {
      assert NoneRejected(json, ds[..0]);
      return;
    }
    var tail := ds[1..];
    var keys' := keys[ds[0].field := DefaultTemplate(json, ds[0])];
    assert tail[k - 1] == ds[k];
    ApplyDefaultsFirstError(json, tail, keys');
    var i :| 0 <= i < |tail| && Rejected(json, tail[i]) && NoneRejected(json, tail[..i]) &&
             ApplyDefaults(json, tail, keys').error == InvalidJsonMessage(tail[i]);
    assert ApplyDefaults(json, ds, keys) == ApplyDefaults(json, tail, keys');
    assert ds[i + 1] == tail[i];
    NoneRejectedPrefix(json, ds, i);
    assert Rejected(json, ds[i + 1]) && NoneRejected(json, ds[..i + 1]) &&
           ApplyDefaults(json, ds, keys).error == InvalidJsonMessage(ds[i + 1]);
  }

  /** A clean prefix of the tail, behind a clean head, is a clean prefix. */
  lemma {:induction false} NoneRejectedPrefix(json: Json, ds: seq<FieldDefault>, i: nat)
    requires i < |ds| && !Rejected(json, ds[0]) && NoneRejected(json, ds[1..][..i])
    ensures NoneRejected(json, ds[..i + 1])
  {
    var pre := ds[..i + 1];
    var tl := ds[1..][..i];
    forall j | 0 <= j < i + 1 ensures !Rejected(json, pre[j]) {
      if j > 0 {
        assert pre[j] == tl[j - 1];
      }
    }
  }

  /** What a successful run leaves under one key `f`: the template of the
      last default naming `f`, else the caller's value, else nothing. */
  predicate StoredAt(json: Json, ds: seq<FieldDefault>, keys: map<string, string>,
                     m: map<string, string>, f: string) {
    (f in m <==> f in keys || LastFor(ds, f).Some?) &&
    (LastFor(ds, f).Some? ==> m[f] == DefaultTemplate(json, LastFor(ds, f).value)) &&
    (LastFor(ds, f).None? && f in keys ==> m[f] == keys[f])
  }

  /** Without a rejected default, the run succeeds and key `f` holds what
      `StoredAt` says. */
  lemma {:induction false} ApplyDefaultsStoresAt(json: Json, ds: seq<FieldDefault>, keys: map<string, string>, f: string)
    requires NoneRejected(json, ds)
    ensures ApplyDefaults(json, ds, keys).Success?
    ensures StoredAt(json, ds, keys, ApplyDefaults(json, ds, keys).value, f)
    decreases |ds|
  {
    if |ds| == 0 {
      assert LastFor(ds, f) == None;
      return;
    }
    var d := ds[0];
    var tail := ds[1..];
    assert ds == [d] + tail;
    assert !Rejected(json, d);
    assert NoneRejected(json, tail) by {
      assert forall i :: 0 <= i < |tail| ==> tail[i] == ds[i + 1];
    }
    var keys' := keys[d.field := DefaultTemplate(json, d)];
    assert ApplyDefaults(json, ds, keys) == ApplyDefaults(json, tail, keys');
    ApplyDefaultsStoresAt(json, tail, keys', f);
    LastForCons(d, tail, f);
  }

  /** Without a rejected default, every field holds the template of its
      last default and every other key is untouched. */
  lemma {:induction false} ApplyDefaultsStores(json: Json, ds: seq<FieldDefault>, keys: map<string, string>)
    requires NoneRejected(json, ds)
    ensures ApplyDefaults(json, ds, keys).Success?
    ensures forall f :: StoredAt(json, ds, keys, ApplyDefaults(json, ds, keys).value, f)
  {
    ApplyDefaultsStoresAt(json, ds, keys, "");
    forall f ensures StoredAt(json, ds, keys, ApplyDefaults(json, ds, keys).value, f) {
      ApplyDefaultsStoresAt(json, ds, keys, f);
    }
  }

  // ---------------------------------------------------------------------
  // Prompt enrichment.

  /** One chat message of a prompt enrichment. */
  datatype Message = Message(role: string, content: string)

  /** The enrichment block of the policy. */
  datatype PromptEnrichment = PromptEnrichment(prepend: seq<Message>, append: seq<Message>)

  /** The key the enriched body is stored under. */
  const MessagesKey := "messages"

  /** The inja expression for the request's own messages. */
  const JoinTemplate := "{{ join(messages, \", \") }}"

  /** `{"content":"<content>","role":"<lower-cased role>"}`, with the
      content and role inserted verbatim (no JSON escaping). */
  function Entry(m: Message): string {
    "{\"content\":\"" + m.content + "\",\"role\":\"" + ToLower(ToLower(m.role)) + "\"}"
  }

  function Entries(ms: seq<Message>): (r: seq<string>)
    ensures |r| == |ms|
    ensures forall i :: 0 <= i < |ms| ==> r[i] == Entry(ms[i])
  {
    seq(|ms|, i requires 0 <= i < |ms| => Entry(ms[i]))
  }

  /** Every string followed by a comma (the prepend chunks). */
  function CommaChunks(xs: seq<string>): (r: seq<string>)
    ensures |r| == |xs|
    ensures forall i :: 0 <= i < |xs| ==> r[i] == xs[i] + ","
  {
    seq(|xs|, i requires 0 <= i < |xs| => xs[i] + ",")
  }

  /** Every string but the last followed by a comma (the append chunks). */
  function SeparatedChunks(xs: seq<string>): (r: seq<string>)
    ensures |r| == |xs|
    ensures forall i :: 0 <= i < |xs| ==> r[i] == xs[i] + (if i != |xs| - 1 then "," else "")
  {
    seq(|xs|, i requires 0 <= i < |xs| => xs[i] + (if i != |xs| - 1 then "," else ""))
  }

  /** The body as the builder writes it: `[`, the prepend chunks, the join
      expression, a comma and the append chunks when there are any, `]`. */
  function PromptBody(pe: PromptEnrichment): string {
    var appends := SeparatedChunks(Entries(pe.append));
    "[" + Concat(CommaChunks(Entries(pe.prepend))) + JoinTemplate +
      (if |appends| > 0 then "," + Concat(appends) else "") + "]"
  }

  /** `applyPromptEnrichment`: no enrichment leaves the keys alone; an
      enrichment replaces the `messages` template and nothing else. */
  function ApplyPromptEnrichment(pe: Option<PromptEnrichment>, keys: map<string, string>)
    : (r: map<string, string>)
    ensures pe.None? ==> r == keys
    ensures pe.Some? ==> MessagesKey in r && r[MessagesKey] == PromptBody(pe.value)
    ensures forall k :: k != MessagesKey ==> (k in r <==> k in keys) && (k in keys ==> r[k] == keys[k])
  {
    if pe.None? then keys else keys[MessagesKey := PromptBody(pe.value)]
  }

  lemma {:induction false} ConcatSnoc(xs: seq<string>, y: string)
    ensures Concat(xs + [y]) == Concat(xs) + y
  {
    assert (xs + [y])[..|xs|] == xs;
  }

  lemma {:induction false} JoinWithSnoc(xs: seq<string>, y: string, sep: string)
    requires |xs| > 0
    ensures JoinWith(xs + [y], sep) == JoinWith(xs, sep) + sep + y
  {
    assert (xs + [y])[..|xs|] == xs;
  }

  /** Strings each followed by a comma, then `t`: the comma-joined list
      of the strings and `t`. */
  lemma {:induction false} CommaChunksJoin(xs: seq<string>, t: string)
    ensures Concat(CommaChunks(xs)) + t == JoinWith(xs + [t], ",")
    decreases |xs|
  {
    if |xs| == 0 {
      assert xs + [t] == [t];
    } else {
      var init := xs[..|xs| - 1];
      var x := xs[|xs| - 1];
      CommaChunksJoin(init, x);
      assert CommaChunks(xs) == CommaChunks(init) + [x + ","];
      ConcatSnoc(CommaChunks(init), x + ",");
      assert init + [x] == xs;
      JoinWithSnoc(xs, t, ",");
    }
  }

  /** Joining two non-empty lists is joining each and putting the
      separator between. */
  lemma {:induction false} JoinWithAppend(xs: seq<string>, ys: seq<string>, sep: string)
    requires |xs| > 0 && |ys| > 0
    ensures JoinWith(xs + ys, sep) == JoinWith(xs, sep) + sep + JoinWith(ys, sep)
    decreases |ys|
  {
    var init := ys[..|ys| - 1];
    var y := ys[|ys| - 1];
    assert xs + ys == (xs + init) + [y];
    if |init| == 0 {
      assert ys == [y];
      JoinWithSnoc(xs, y, sep);
    } else {
      JoinWithAppend(xs, init, sep);
      JoinWithSnoc(xs + init, y, sep);
      assert init + [y] == ys;
      JoinWithSnoc(init, y, sep);
    }
  }

  /** The append chunks spell the comma-joined entries. */
  lemma {:induction false} SeparatedChunksJoin(xs: seq<string>)
    requires |xs| > 0
    ensures Concat(SeparatedChunks(xs)) == JoinWith(xs, ",")
  {
    var n := |xs|;
    var init := xs[..n - 1];
    var sc := SeparatedChunks(xs);
    var cc := CommaChunks(init);
    assert sc[..n - 1] == cc by {
      forall i | 0 <= i < n - 1 ensures sc[i] == cc[i] {
        assert sc[i] == xs[i] + ",";
      }
    }
    assert sc[n - 1] == xs[n - 1] + "";
    assert xs[n - 1] + "" == xs[n - 1];
    CommaChunksJoin(init, xs[n - 1]);
    assert init + [xs[n - 1]] == xs;
  }

  /** The enriched body is the JSON-array-looking list of the prepend
      entries, the request's own messages and the append entries, in that
      order, separated by commas: every prepend entry is followed by a
      comma, the append entries carry no trailing comma, and a comma
      follows the join expression exactly when there are append entries. */
  lemma {:induction false} PromptBodyShape(pe: PromptEnrichment)
    ensures PromptBody(pe) ==
              "[" + JoinWith(Entries(pe.prepend) + [JoinTemplate] + Entries(pe.append), ",") + "]"
  {
    ChunksJoin(Entries(pe.prepend), JoinTemplate, Entries(pe.append));
  }

  /** The join of the chunks around a middle element, over any strings. */
  lemma {:induction false} ChunksJoin(pre: seq<string>, mid: string, app: seq<string>)
    ensures var sc := SeparatedChunks(app);
            Concat(CommaChunks(pre)) + mid + (if |sc| > 0 then "," + Concat(sc) else "") ==
              JoinWith(pre + [mid] + app, ",")
  {
    CommaChunksJoin(pre, mid);
    if |app| > 0 {
      SeparatedChunksJoin(app);
      JoinWithAppend(pre + [mid], app, ",");
    } else {
      assert pre + [mid] + app == pre + [mid];
    }
  }

  /** Concretely: one prepend and one append message around the request's
      messages, the prepended role lower-cased. */
  lemma PromptBodyExample()
    ensures PromptBody(PromptEnrichment([Message("SYSTEM", "hi")], [Message("user", "bye")])) ==
              "[" + Entry(Message("system", "hi")) + "," + JoinTemplate + "," + Entry(Message("user", "bye")) + "]"
  {
    var pe := PromptEnrichment([Message("SYSTEM", "hi")], [Message("user", "bye")]);
    PromptBodyShape(pe);
    LowerRole("SYSTEM", "system");
    LowerRole("system", "system");
    var e1 := Entry(Message("system", "hi"));
    var e2 := Entry(Message("user", "bye"));
    assert Entries(pe.prepend) + [JoinTemplate] + Entries(pe.append) == [e1, JoinTemplate, e2];
    JoinThree(e1, JoinTemplate, e2, ",");
  }

  lemma LowerRole(role: string, lower: string)
    requires |role| == |lower| && forall i :: 0 <= i < |role| ==> LowerChar(role[i]) == lower[i]
    ensures ToLower(ToLower(role)) == lower
  {
  }

  lemma JoinThree(a: string, b: string, c: string, sep: string)
    ensures JoinWith([a, b, c], sep) == a + sep + b + sep + c
  {
    assert [a, b][..1] == [a];
    assert JoinWith([a, b], sep) == a + sep + b;
    assert [a, b, c][..2] == [a, b];
  }
}
