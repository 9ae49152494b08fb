/** The catalog entries the derivation algorithms read (pkg/config/config.go). */
module Catalog {
  import opened Wrappers

  datatype Provenance = Primary | SecondaryMerge | SecondaryRetention | OtherProvenance(text: string)

  /** Internal URLs are kept in parsed form. */
  datatype Url =
    | Plain(text: string)
    | RetentionWindow(parent: string, minutes: int)
    | Merged(inputs: seq<string>, exclude: seq<string>)

  /** The fields of a source that expansion and resolution read or set; the
      remaining ones travel together in `rest`. */
  datatype Source = Source(
    name: string,
    url: Url,
    frequency: int,
    history: seq<int>,
    use: seq<string>,
    derivedFrom: seq<string>,
    mergeSources: seq<string>,
    mergeExclude: seq<string>,
    provenance: Provenance,
    redistributable: Option<bool>,
    artifactParent: string,
    historyWindowDays: int,
    processor: string,
    acceptEmpty: bool,
    critical: Option<string>,
    rest: string)

  /** A curator's merge; its other fields are carried over unread. */
  datatype Merge = Merge(
    sources: seq<string>,
    exclude: seq<string>,
    history: seq<int>,
    use: seq<string>,
    frequency: int,
    redistributable: Option<bool>,
    critical: Option<string>,
    rest: string)

  /** A Go map to pointers: a present name may hold nil. */
  type Sources = map<string, Option<Source>>
  type Merges = map<string, Option<Merge>>

  function SourceAt(sources: Sources, name: string): Option<Source> {
    if name in sources then sources[name] else None
  }

  function MergeAt(merges: Merges, name: string): Option<Merge> {
    if name in merges then merges[name] else None
  }

  /** `IsRedistributable`: only an explicit false opts out. */
  predicate Redistributable(s: Source) {
    s.redistributable != Some(false)
  }

  /** `mergeSourceNames`: the additive inputs, for old merges all parents. */
  function MergeSourceNames(s: Source): seq<string> {
    if |s.mergeSources| > 0 || |s.mergeExclude| > 0 then s.mergeSources else s.derivedFrom
  }

  function ParentsOf(s: Option<Source>): seq<string> {
    if s.Some? then s.value.derivedFrom else []
  }

  /** The derived-from graph of the catalog. */
  function DerivedFrom(sources: Sources): map<string, seq<string>> {
    map n | n in sources :: ParentsOf(sources[n])
  }
}
