/** The comments as they stand on an Issue, character for character (scripts/actions_request_handler.py):
    the marker line, the fences, and JSON laid out as `json.dumps` does with an indent of two. */
module CommentTexts {
  import opened Common
  import opened Text
  import opened CommentFraming
  import opened Envelopes
  import opened MachineComments
  import opened Markers

  // ----- the layout of JSON

  function Spaces(n: nat): string {
    seq(n, i => ' ')
  }

  lemma {:induction false} IndentIsSpaces(level: nat)
    ensures Indent(level) == Spaces(2 * level)
  {
    if level > 0 { IndentIsSpaces(level - 1); }
  }

  /** One part a line, indented, with commas between. */
  function Lines(parts: seq<string>, level: nat): string {
    if parts == [] then ""
    else "\n" + Spaces(2 * level) + parts[0] + (if |parts| == 1 then "" else "," + Lines(parts[1..], level))
  }

  function ItemTexts(items: seq<Value>, level: nat): (parts: seq<string>)
    ensures |parts| == |items|
  {
    seq(|items|, i requires 0 <= i < |items| => Pretty(items[i], level))
  }

  function MemberTexts(ms: seq<Member>, level: nat): (parts: seq<string>)
    ensures |parts| == |ms|
  {
    seq(|ms|, i requires 0 <= i < |ms| => QuotedString(ms[i].name) + ": " + Pretty(ms[i].value, level))
  }

  lemma Regrouped(comma: string, start: string, part: string, rest: string)
    ensures comma + start + part + rest == comma + (start + part + rest)
  {
  }

  /** The first line of those left. */
  lemma LinesStep(parts: seq<string>, i: nat, level: nat)
    requires i < |parts|
    ensures Lines(parts[i..], level)
            == NewLine(level) + parts[i] + (if i + 1 == |parts| then "" else "," + Lines(parts[i + 1..], level))
  {
    IndentIsSpaces(level);
    hide Spaces, Indent;
    assert parts[i..][1..] == parts[i + 1..];
  }

  lemma {:induction false} ItemsAreLines(items: seq<Value>, i: nat, level: nat)
    requires i < |items|
    ensures PrettyItems(items, i, level) == (if i == 0 then "" else ",") + Lines(ItemTexts(items, level)[i..], level)
    decreases |items| - i
  {
    hide Pretty, NewLine, Lines;
    var comma := if i == 0 then "" else ",";
    var rest := PrettyItems(items, i + 1, level);
    LinesStep(ItemTexts(items, level), i, level);
    if i + 1 < |items| { ItemsAreLines(items, i + 1, level); }
    assert PrettyItems(items, i, level) == comma + NewLine(level) + Pretty(items[i], level) + rest;
    hide PrettyItems;
    Regrouped(comma, NewLine(level), Pretty(items[i], level), rest);
  }

  lemma {:induction false} MembersAreLines(ms: seq<Member>, i: nat, level: nat)
    requires i < |ms|
    ensures PrettyMembers(ms, i, level) == (if i == 0 then "" else ",") + Lines(MemberTexts(ms, level)[i..], level)
    decreases |ms| - i
  {
    hide Pretty, NewLine, Lines, QuotedString;
    var comma := if i == 0 then "" else ",";
    var rest := PrettyMembers(ms, i + 1, level);
    LinesStep(MemberTexts(ms, level), i, level);
    assert MemberTexts(ms, level)[i] == PrettyMember(ms[i], level);
    hide MemberTexts, PrettyMember;
    if i + 1 < |ms| { MembersAreLines(ms, i + 1, level); }
    assert PrettyMembers(ms, i, level) == comma + NewLine(level) + PrettyMember(ms[i], level) + rest;
    hide PrettyMembers;
    Regrouped(comma, NewLine(level), PrettyMember(ms[i], level), rest);
  }

  /** A list or dictionary that is not empty stands on lines of its own, two spaces further in, and its
      closing bracket again on a line. */
  lemma PrettyIsLaidOut(v: Value, level: nat)
    ensures match v
            case VList(items) =>
              Pretty(v, level) == if items == [] then "[]"
                                  else "[" + Lines(ItemTexts(items, level + 1),
                                                   level + 1) + ("\n" + Spaces(2 * level)) + "]"
            case VObject(ms) =>
              Pretty(v, level) == if ms == [] then "{}"
                                  else "{" + Lines(MemberTexts(ms, level + 1),
                                                   level + 1) + ("\n" + Spaces(2 * level)) + "}"
            case _ => true
  {
    IndentIsSpaces(level);
    hide Spaces, Indent, Lines;
    match v
    case VList(items) => if items != [] { ItemsAreLines(items, 0, level + 1); }
    case VObject(ms) => if ms != [] { MembersAreLines(ms, 0, level + 1); }
    case _ =>
  }

  // ----- the marker and the fences

  /** The marker's parts, joined by equals signs, then the fenced JSON. */
  function Comment(parts: seq<string>, json: string): string {
    Join(parts, '=') + "\n" + "```json\n" + json + "\n```\n"
  }

  lemma ReceiptMarker(fs: seq<string>, json: string)
    requires |fs| == 5
    ensures Frame(MarkerText(RECEIPT_HEAD, fs, RECEIPT_LABELS), json)
            == Comment(["<" + ("!-- zach-actions:" + ("receipt" + ":v1:")) + "request_id", fs[0] + ":digest",
                        fs[1] + ":op",
                        fs[2] + ":accepted_revision", fs[3] + ":claim_revision", fs[4] + " -->"], json)
  {
    hide Join;
    assert [RECEIPT_HEAD] + Labelled(fs, RECEIPT_LABELS)
           == [RECEIPT_HEAD, fs[0] + ":digest", fs[1] + ":op", fs[2] + ":accepted_revision", fs[3] + ":claim_revision",
               fs[4] + " -->"];
  }

  /** A receipt is formatted exactly when its five bound fields are texts and it is within both limits,
      and this is how. */
  lemma ReceiptIsSpelled(e: Value)
    ensures var id, digest, operation := GetString(e, "request_id"), GetString(e, "request_digest"),
            GetString(e, "operation");
            var accepted, claim := GetString(e, "accepted_revision"), GetString(e, "claim_revision");
            if id.Some? && digest.Some? && operation.Some? && accepted.Some? && claim.Some?
            && ByteLength(Pretty(e, 0)) <= 32768
            then var text := Comment(["<" + ("!-- zach-actions:" + ("receipt" + ":v1:")) + "request_id",
                                      id.value + ":digest",
                                      digest.value + ":op", operation.value + ":accepted_revision",
                                      accepted.value + ":claim_revision", claim.value + " -->"], Pretty(e, 0));
                 FormatReceipt(e) == if ByteLength(text) <= 65536 then Ok(text) else Err(TooLarge)
            else FormatReceipt(e).Err?
  {
    hide ByteLength, Pretty, MarkerText, Frame, Comment;
    NamesAre();
    var fs := FieldStrings(e, RECEIPT_NAMES);
    if fs.Some? {
      ReceiptMarker(fs.value, Pretty(e, 0));
    } else {
      var i :| 0 <= i < |RECEIPT_NAMES| && GetString(e, RECEIPT_NAMES[i]).None?;
    }
  }

  lemma NamesAre()
    ensures |RECEIPT_NAMES| == 5
    ensures RECEIPT_NAMES[0] == "request_id" && RECEIPT_NAMES[1] == "request_digest" && RECEIPT_NAMES[2] == "operation"
    ensures RECEIPT_NAMES[3] == "accepted_revision" && RECEIPT_NAMES[4] == "claim_revision"
  {
  }

  function NameOf(k: Kind): string {
    match k
    case IntentKind => "intent"
    case PrepareKind => "prepare"
    case PublicationKind => "publication"
    case PublishedKind => "published"
  }

  lemma PublisherMarker(k: Kind, fs: seq<string>, json: string)
    requires |fs| == if k.IntentKind? then 3 else 5
    ensures Frame(MarkerText(PublisherPrefix(k) + "request_id", fs, PublisherLabels(k)), json)
            == Comment(["<" + ("!-- zach-actions:" + ("publisher-" + NameOf(k) + ":v1:")) + "request_id",
                        fs[0] + ":digest",
                        fs[1] + ":execution_digest"]
                       + (if k.IntentKind? then [fs[2] + " -->"]
                          else [fs[2] + ":accepted_revision", fs[3] + ":claim_revision", fs[4] + " -->"]), json)
  {
    hide Join;
    var head := PublisherPrefix(k) + "request_id";
    assert head == "<" + ("!-- zach-actions:" + ("publisher-" + NameOf(k) + ":v1:")) + "request_id";
    assert [head] + Labelled(fs, PublisherLabels(k))
           == [head, fs[0] + ":digest", fs[1] + ":execution_digest"]
              + (if k.IntentKind? then [fs[2] + " -->"]
                 else [fs[2] + ":accepted_revision", fs[3] + ":claim_revision", fs[4] + " -->"]);
  }

  /** What a formatted Publisher comment looks like: the marker names the request, its digest, the
      digest of the execution id and, for a bundle, its two revisions. */
  lemma PublisherIsSpelled(k: Kind, e: Value)
    requires FormatPublisher(k, e).Ok?
    ensures var text := FormatPublisher(k, e).value;
            var source := if k.IntentKind? then Some(e) else Get(e, "bundle");
            && ByteLength(text) <= 65536 && source.Some? && GetString(source.value, "request_id").Some?
            && GetString(source.value, "request_digest").Some? && GetString(source.value, "execution_id").Some?
            && var id := GetString(source.value, "request_id").value;
               var digest := GetString(source.value, "request_digest").value;
               var execution := DigestOf(GetString(source.value, "execution_id").value);
               var accepted, claim := GetString(source.value, "accepted_revision"),
                   GetString(source.value, "claim_revision");
               var start := ["<" + ("!-- zach-actions:" + ("publisher-" + NameOf(k) + ":v1:")) + "request_id",
                             id + ":digest", digest + ":execution_digest"];
               && (k.IntentKind? ==> text == Comment(start + [execution + " -->"], Pretty(e, 0)))
               && (!k.IntentKind? ==> accepted.Some? && claim.Some?)
               && (!k.IntentKind? ==>
                     text == Comment(start + [execution + ":accepted_revision", accepted.value + ":claim_revision",
                                              claim.value + " -->"], Pretty(e, 0)))
  {
    hide ByteLength, Pretty, MarkerText, Frame, Comment, DigestOf, ExecutionId, PublicationEnvelope, PublisherPrefix,
         NameOf;
    PublisherMarker(k, MarkerFields(k, e).value, Pretty(e, 0));
  }
}
