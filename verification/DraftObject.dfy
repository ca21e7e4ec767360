/** Cutting the draft out of the screen in place: the rows that are cut are copied, so that the draft and
    the screen share no row while they are apart.
 */
module DraftObject {
  import S = Screen
  import D = Draft
  import opened ScreenObject

  class ChatWorkspace {
    var conversation: WorkspaceScreen
    var draftRow: int
    var draftColumn: int
    var draftDropped: int

    ghost function Value(): D.View
      reads this, conversation
    {
      D.View(conversation.value, draftRow, draftColumn, draftDropped)
    }

    constructor (width: int)
      ensures conversation.Rep() && fresh(conversation) && fresh(conversation.rows)
      ensures Value() == D.View(S.NewScreen(width), 0, 0, 0)
    {
      conversation := new WorkspaceScreen(width);
      draftRow, draftColumn, draftDropped := 0, 0, 0;
    }

    method DetachDraft() returns (draft: WorkspaceScreen)
      requires conversation.Rep() && D.Sound(conversation.value)
      modifies conversation
      ensures conversation.Rep() && draft.Rep() && fresh(draft)
      ensures conversation.rows !! draft.rows
      ensures fresh(conversation.rows + draft.rows - old(conversation.rows))
      ensures Value() == D.Detach(old(Value())) && draft.value == D.DraftOf(old(Value()))
    {
      var screen := conversation;
      var start := S.Min(|screen.lines| - 1, S.Max(0, draftRow - (screen.dropped - draftDropped)));
      var column := S.Min(|screen.lines[start].cells|, S.Max(0, draftColumn));
      draft := screen.SplitOff(start, column);
      screen.Truncate(start, column);
    }

    method AttachDraft(draft: WorkspaceScreen)
      requires conversation.Rep() && draft.Rep() && draft != conversation && conversation.rows !! draft.rows
      requires D.Sound(conversation.value) && D.Drafted(draft.value)
      modifies this`draftRow, this`draftColumn, this`draftDropped, conversation, conversation.rows
      ensures conversation.Rep() && Value() == D.Attach(old(Value()), old(draft.value))
    {
      var start, column := conversation.row, conversation.column;
      conversation.Join(draft);
      draftRow, draftColumn, draftDropped := start, column, conversation.dropped;
    }

    /** Output that arrives while the draft is away leaves the draft as it was. */
    method OutputMeanwhile(text: seq<S.Rune>) returns (draft: WorkspaceScreen)
      requires conversation.Rep() && S.Valid(conversation.value)
      modifies conversation, conversation.rows
      ensures conversation.Rep() && draft.Rep() && draft != conversation && conversation.rows !! draft.rows
      ensures fresh(conversation.rows - old(conversation.rows)) && fresh(draft)
      ensures draft.value == D.DraftOf(old(Value()))
      ensures conversation.value == S.PutAll(D.Detach(old(Value())).screen, text)
    {
      draft := DetachDraft();
      conversation.PutAll(text);
    }

    /** And is put back behind that output. */
    method AwayAndBack(text: seq<S.Rune>)
      requires conversation.Rep() && S.Valid(conversation.value)
      modifies this, conversation, conversation.rows
      ensures conversation == old(conversation) && conversation.Rep()
      ensures var before := D.Detach(old(Value()));
              Value() == D.Attach(before.(screen := S.PutAll(before.screen, text)), D.DraftOf(old(Value())))
    {
      var draft := OutputMeanwhile(text);
      AttachDraft(draft);
    }
  }
}
