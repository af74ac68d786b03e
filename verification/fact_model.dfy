/** A fact as the app uses it: the decoded fields plus the optional emoji list and pack tag
    that the screens read. */
module FactModel {
  import opened Wrappers

  datatype Fact = Fact(
    id: string,
    text: string,
    category: Option<string>,
    emojis: Option<seq<string>>,
    factPack: Option<string>)
}
