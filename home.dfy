/** The latest-notices box of the home page: the three newest notices, their
    contents cut at 100 characters until expanded, and their attachment
    icons. A failed load shows an empty box. */
module Home {
  import opened Wrappers
  import opened Types
  import opened Seqs
  import opened Text
  import NoticesApi
  import NoticeView

  const Shown: nat := 3

  /** Contents longer than this are cut short until expanded. */
  const PreviewLength: nat := 100

  /** The box asks for the three newest notices. */
  lemma HomeQuery()
    ensures NoticesApi.RequestedRange(Some("3"), Some("0")) == Some((0, 2))
  {
    assert NatToString(3) == "3" && NatToString(0) == "0";
    NoticesApi.WrittenRange(3, 0);
  }

  class NoticesSection {
    var notices: seq<Notice>
    var loading: bool
    var expanded: set<string>

    constructor ()
      ensures notices == [] && loading && expanded == {}
    {
      notices, loading, expanded := [], true, {};
    }

    /** The load: an ok answer's array, and an empty list for a non-ok
        answer, a body that is not an array, a body that is not JSON, or an
        exception. */
    method FetchNotices(answer: NoticeView.FetchResult)
      modifies this`notices, this`loading
      ensures !loading
      ensures notices == NoticeView.Received(answer)
      ensures !(NoticeView.LoadedOk(answer) && answer.body.NoticeArray?) ==> notices == []
    {
      loading := true;
      if NoticeView.LoadedOk(answer) && answer.body.NoticeArray? {
        notices := answer.body.rows;
      } else {
        notices := [];
      }
      loading := false;
    }

    /** The notices rendered: the first three. */
    function Rendered(): (r: seq<Notice>)
      reads this
      ensures |r| <= Shown && r <= notices
      ensures |notices| >= Shown ==> |r| == Shown
      ensures |notices| <= Shown ==> r == notices
    {
      TakeSpec(notices, Shown);
      Take(notices, Shown)
    }

    method ToggleExpand(id: string)
      modifies this`expanded
      ensures expanded == NoticeView.Toggle(old(expanded), id)
    {
      expanded := NoticeView.Toggle(expanded, id);
    }

    function ContentShown(n: Notice): string
      reads this
    {
      NoticeView.Preview(n.content, PreviewLength, n.id in expanded)
    }

    function ButtonShown(n: Notice): NoticeView.ToggleButton
      reads this
    {
      NoticeView.Button(n.content, PreviewLength, n.id in expanded)
    }

    function Icon(n: Notice): Option<string>
      reads this
    {
      if NoticeView.HasAttachment(n) then Some(NoticeView.FileIcon(n.fileType)) else None
    }
  }

  /** Show Less is offered only for a long content that is expanded, and
      expanding it shows the whole content. */
  lemma ShowLessOnlyWhenLong(s: NoticesSection, n: Notice)
    ensures s.ButtonShown(n) == NoticeView.ShowLess ==> |n.content| > PreviewLength && s.ContentShown(n) == n.content
    ensures |n.content| <= PreviewLength ==> s.ButtonShown(n) == NoticeView.NoButton
  {
  }
}
