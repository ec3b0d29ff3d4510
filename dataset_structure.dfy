/** The schema of a dataset sample: the field `created` given either as a
    tuple or as one string of components separated by ", ", and the order of
    the dataset's columns. */
module DatasetStructure {
  import opened Wrappers
  import opened TextOps

  const CreatedSeparator: string := ", "

  /** What `created` arrives as: a string, or a tuple already. */
  datatype CreatedInput = CreatedText(text: string) | CreatedTuple(parts: seq<string>)

  /** `ensure_tuple`: a string is split at ", "; a tuple is kept as it is. */
  function EnsureTuple(created: CreatedInput): (parts: seq<string>)
    ensures created.CreatedTuple? ==> parts == created.parts
    ensures created.CreatedText? ==> |parts| >= 1
  {
    match created
    case CreatedText(text) => Split(text, CreatedSeparator)
    case CreatedTuple(parts) => parts
  }

  /** Joining the components of a string with ", " gives the string back. */
  lemma EnsureTupleRoundTrip(text: string)
    ensures Join(EnsureTuple(CreatedText(text)), CreatedSeparator) == text
  {
    JoinSplit(text, CreatedSeparator);
  }

  /** No component of a string holds the separator. */
  lemma EnsureTupleComponents(text: string)
    ensures forall k :: 0 <= k < |EnsureTuple(CreatedText(text))| ==>
      !Contains(EnsureTuple(CreatedText(text))[k], CreatedSeparator)
  {
    SplitPartsFree(text, CreatedSeparator);
  }

  /** A string has one component more than it has separators. */
  lemma EnsureTupleArity(text: string)
    ensures |EnsureTuple(CreatedText(text))| == Count(text, CreatedSeparator) + 1
  {
    SplitCount(text, CreatedSeparator);
  }

  /** The schema's check of `created`: exactly two components, each a date
      (reading a date is a parameter; a date is its day number). */
  function ValidateCreated(created: CreatedInput, parseDate: string -> Option<int>): (r: Option<(int, int)>)
    ensures r.Some? <==>
      (|EnsureTuple(created)| == 2 && parseDate(EnsureTuple(created)[0]).Some? && parseDate(EnsureTuple(created)[1]).Some?)
    ensures r.Some? ==>
      r.value.0 == parseDate(EnsureTuple(created)[0]).value && r.value.1 == parseDate(EnsureTuple(created)[1]).value
  {
    var parts := EnsureTuple(created);
    if |parts| != 2 then None
    else
      match (parseDate(parts[0]), parseDate(parts[1]))
      case (Some(first), Some(last)) => Some((first, last))
      case _ => None
  }

  /** A string passes only when it holds exactly one separator. */
  lemma ValidCreatedText(text: string, parseDate: string -> Option<int>)
    requires ValidateCreated(CreatedText(text), parseDate).Some?
    ensures Count(text, CreatedSeparator) == 1
  {
    EnsureTupleArity(text);
  }

  /** The dataset's columns, in the order they are declared. */
  datatype ColumnName = Id | Text | Source | Added | Created | TokenCount

  /** The column's name in the data. */
  function ColumnValue(c: ColumnName): string
  {
    match c
    case Id => "id"
    case Text => "text"
    case Source => "source"
    case Added => "added"
    case Created => "created"
    case TokenCount => "token_count"
  }

  const Columns: seq<ColumnName> := [Id, Text, Source, Added, Created, TokenCount]

  /** `COLUMN_ORDER`: the column names in declaration order. */
  function ColumnOrder(): (order: seq<string>)
    ensures |order| == |Columns|
    ensures forall k :: 0 <= k < |order| ==> order[k] == ColumnValue(Columns[k])
  {
    seq(|Columns|, k requires 0 <= k < |Columns| => ColumnValue(Columns[k]))
  }

  /** The order is id, text, source, added, created, token_count, and no name
      occurs twice. */
  lemma ColumnOrderSpec()
    ensures ColumnOrder() == ["id", "text", "source", "added", "created", "token_count"]
    ensures forall i, j :: 0 <= i < j < |ColumnOrder()| ==> ColumnOrder()[i] != ColumnOrder()[j]
  {
    var order := ColumnOrder();
    assert order == ["id", "text", "source", "added", "created", "token_count"];
  }
}
