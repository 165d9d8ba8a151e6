/** What machine comments are recognized by: the four kinds of Publisher comment and the prefix
    that the marker of each begins with (scripts/actions_request_handler.py). */
module Markers {

  datatype Kind = IntentKind | PrepareKind | PublicationKind | PublishedKind

  function KindName(k: Kind): string {
    match k
    case IntentKind => "intent"
    case PrepareKind => "prepare"
    case PublicationKind => "publication"
    case PublishedKind => "published"
  }

  const START := "!-- zach-actions:"

  function MarkerPrefix(name: string): string {
    "<" + (START + (name + ":v1:"))
  }

  function PublisherPrefix(k: Kind): string {
    MarkerPrefix("publisher-" + KindName(k))
  }
}
