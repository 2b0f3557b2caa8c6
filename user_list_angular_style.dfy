/**
 * user-list-angular-style.component.ts: the same table as users.component.ts
 * fed through HttpClient: the first five posts, a loading flag and an error
 * message, and a tab selector.
 */
module UserListAngularStyle {
  import opened Common
  import opened Sorting
  import opened SortToggle
  import opened UserPosts

  const PipeError := "Erreur irrécupérable dans pipe !"

  class UserListAngularStyleComponent {
    var userList: array<User>
    var selectedTab: int
    var currentSortColumn: string
    var currentSortDirection: Direction
    var loading: bool
    /** `null` is None. */
    var errorMessage: Option<string>

    constructor ()
      ensures userList.Length == 0 && selectedTab == 1
      ensures currentSortColumn == "" && currentSortDirection == Asc
      ensures !loading && errorMessage == None
    {
      userList := new User[0];
      selectedTab := 1;
      currentSortColumn := "";
      currentSortDirection := Asc;
      loading := false;
      errorMessage := None;
    }

    /**
     * `fetchData` once its request has settled: the first five rows on
     * success; on failure the error is caught, the message set and the list
     * emptied. Loading has ended either way.
     */
    method FetchData(response: Outcome<seq<User>>)
      modifies this
      ensures fresh(userList) && !loading
      ensures response.Done? ==> userList[..] == Take(response.value, 5) && errorMessage == None
      ensures response.Threw? ==> userList[..] == [] && errorMessage == Some(PipeError)
      ensures selectedTab == old(selectedTab)
      ensures currentSortColumn == old(currentSortColumn) && currentSortDirection == old(currentSortDirection)
    {
      loading := true;
      errorMessage := None;
      var received: seq<User>;
      match response {
        case Done(rows) =>
          received := Take(rows, 5);
        case Threw(_) =>
          errorMessage := Some(PipeError);
          received := [];
      }
      loading := false;
      userList := ToArray(received);
    }

    method ChangeTab(selected: int)
      modifies this
      ensures selectedTab == selected
      ensures userList == old(userList) && loading == old(loading) && errorMessage == old(errorMessage)
      ensures currentSortColumn == old(currentSortColumn) && currentSortDirection == old(currentSortDirection)
    {
      selectedTab := selected;
    }

    /**
     * `sortTableHtml`: the header click updates the sort state, the array is
     * sorted in place by the chosen column and direction, and a copy of it
     * becomes the new `userList`.
     */
    method SortTableHtml(sortBy: string)
      modifies this, userList
      ensures SortState(currentSortColumn, currentSortDirection)
           == Click(old(SortState(currentSortColumn, currentSortDirection)), sortBy)
      ensures fresh(userList)
      ensures userList[..] == StableSort(old(userList[..]), ByColumn(sortBy, currentSortDirection))
      ensures multiset(userList[..]) == multiset(old(userList[..]))
      ensures sortBy == "id" ==> forall i, j :: 0 <= i < j < userList.Length ==>
                (if currentSortDirection == Asc then userList[i].id <= userList[j].id else userList[i].id >= userList[j].id)
      ensures !KnownColumn(sortBy) ==> userList[..] == old(userList[..])
      ensures selectedTab == old(selectedTab) && loading == old(loading) && errorMessage == old(errorMessage)
    {
      if currentSortColumn == sortBy {
        currentSortDirection := Flip(currentSortDirection);
      } else {
        currentSortColumn := sortBy;
        currentSortDirection := Asc;
      }
      userList := SortedCopy(userList, sortBy, currentSortDirection);
    }

    /** `getSortIcon`: the arrow on the current column, '▼' on the others. */
    function GetSortIcon(column: string): (r: string)
      reads this
      ensures column == currentSortColumn && currentSortDirection == Asc ==> r == " ▲"
      ensures column == currentSortColumn && currentSortDirection == Desc ==> r == " ▼"
      ensures column != currentSortColumn ==> r == "▼"
    {
      SortIcon(currentSortColumn == column, currentSortDirection, "▼")
    }
  }
}
