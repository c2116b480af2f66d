/** `src/redux/slices/treeViewSlice.ts`: the tree view's store, one request with its loading flag, error and data. */
module TreeViewSlice {
  import opened Wrappers
  import opened TreeViewTypes

  class TreeState {
    var treeData: Option<TreeData>
    var loading: bool
    var error: Option<string>

    /** `initialState`: no data, not loading, no error. */
    constructor ()
      ensures treeData.None? && !loading && error.None?
    {
      treeData := None;
      loading := false;
      error := None;
    }

    /** The topology request starts: loading, error cleared, data kept. */
    method Pending()
      modifies this`loading, this`error
      ensures loading && error.None?
    {
      loading := true;
      error := None;
    }

    /** The topology arrives: not loading, data replaced, error kept. */
    method Fulfilled(payload: TreeData)
      modifies this`loading, this`treeData
      ensures !loading && treeData == Some(payload)
    {
      loading := false;
      treeData := Some(payload);
    }

    /** The request fails: not loading, error recorded, the previous topology kept. */
    method Rejected(message: Option<string>)
      modifies this`loading, this`error
      ensures !loading && error == message
    {
      loading := false;
      error := message;
    }
  }
}
