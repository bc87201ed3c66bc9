/** The discussions page: the case-insensitive search over title, content
    and author name, and the create form it opens and closes. */
module DiscussionsPage {
  import opened Common
  import opened Seqs
  import opened Strings
  import opened Discussions

  /** The author's full name, when the row has an author with a name. */
  function AuthorName(d: DiscussionData): Option<string> {
    if d.author.Some? then d.author.value.fullName else None
  }

  /** `title.includes(term) || content.includes(term) ||
      author?.full_name?.includes(term)`, each side lowercased. */
  predicate DiscussionShown(term: string, d: DiscussionData) {
    || Contains(Lower(d.title), Lower(term))
    || Contains(Lower(d.content), Lower(term))
    || (AuthorName(d).Some? && Contains(Lower(AuthorName(d).value), Lower(term)))
  }

  function Shown(term: string): DiscussionData -> bool {
    (d: DiscussionData) => DiscussionShown(term, d)
  }

  /** `filteredDiscussions`. */
  function FilterDiscussions(discussions: seq<DiscussionData>, term: string): (r: seq<DiscussionData>)
    ensures forall i :: 0 <= i < |r| ==> DiscussionShown(term, r[i]) && r[i] in discussions
  {
    Filter(Shown(term), discussions)
  }

  /** A discussion is listed exactly when it matches, in the hook's order. */
  lemma FilterDiscussionsExactly(discussions: seq<DiscussionData>, term: string, d: DiscussionData)
    ensures d in FilterDiscussions(discussions, term) <==> d in discussions && DiscussionShown(term, d)
    ensures IsSubsequence(FilterDiscussions(discussions, term), discussions)
  {
    FilterMembership(Shown(term), discussions, d);
    FilterIsSubsequence(Shown(term), discussions);
  }

  /** The empty search term lists every discussion. */
  lemma EmptyTermListsAllDiscussions(discussions: seq<DiscussionData>)
    ensures FilterDiscussions(discussions, "") == discussions
  {
    forall i | 0 <= i < |discussions|
      ensures Shown("")(discussions[i])
    {
      ContainsEmpty(Lower(discussions[i].title));
    }
    FilterAll(Shown(""), discussions);
  }

  /** The search ignores the case of ASCII letters in the term. */
  lemma DiscussionSearchIgnoresTermCase(discussions: seq<DiscussionData>, term: string)
    ensures FilterDiscussions(discussions, Lower(term)) == FilterDiscussions(discussions, term)
  {
    LowerIdempotent(term);
    FilterAgree(Shown(Lower(term)), Shown(term), discussions);
  }

  /** A discussion whose author has no profile is found only through its
      title or content. */
  lemma NoAuthorMatchesOnText(term: string, d: DiscussionData)
    requires d.author.None?
    ensures DiscussionShown(term, d) <==>
            Contains(Lower(d.title), Lower(term)) || Contains(Lower(d.content), Lower(term))
  {
  }

  /** The state of the discussions page. */
  class DiscussionsPageState {
    var searchTerm: string
    var showCreateForm: bool

    constructor ()
      ensures searchTerm == "" && !showCreateForm
    {
      searchTerm := "";
      showCreateForm := false;
    }

    /** The "New Discussion" button. */
    method OpenCreateForm()
      modifies this`showCreateForm
      ensures showCreateForm
    {
      showCreateForm := true;
    }

    /** The form's `onCancel`. */
    method CancelCreate()
      modifies this`showCreateForm
      ensures !showCreateForm
    {
      showCreateForm := false;
    }

    /** `handleCreateSuccess`: the form closes and the list is refetched. */
    method HandleCreateSuccess() returns (refetch: bool)
      modifies this`showCreateForm
      ensures !showCreateForm && refetch
    {
      showCreateForm := false;
      refetch := true;
    }
  }
}
