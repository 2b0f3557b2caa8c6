/**
 * users.component.ts: the first twenty posts of the placeholder API in a
 * table whose headers sort it. `userList` is the array the template shows;
 * a header click sorts it in place and then replaces it by a copy.
 */
module Users {
  import opened Common
  import opened Sorting
  import opened SortToggle
  import opened UserPosts

  class UsersComponent {
    var userList: array<User>
    var selectedTab: int
    var currentSortColumn: string
    var currentSortDirection: Direction

    /** The field initialisers; the fetch the constructor starts completes later, in `FetchData`. */
    constructor ()
      ensures userList.Length == 0 && selectedTab == 1 && currentSortColumn == "" && currentSortDirection == Asc
    {
      userList := new User[0];
      selectedTab := 1;
      currentSortColumn := "";
      currentSortDirection := Asc;
    }

    /** `fetchData`: keeps the first twenty rows received; a failed fetch changes nothing. */
    method FetchData(response: Outcome<seq<User>>)
      modifies this
      ensures response.Done? ==> fresh(userList) && userList[..] == Take(response.value, 20)
      ensures response.Threw? ==> userList == old(userList)
      ensures selectedTab == old(selectedTab)
      ensures currentSortColumn == old(currentSortColumn) && currentSortDirection == old(currentSortDirection)
    {
      match response {
        case Done(rows) => userList := ToArray(Take(rows, 20));
        case Threw(_) =>
      }
    }

    /** `changeTab`: the selected tab changes and nothing else. */
    method ChangeTab(selected: int)
      modifies this
      ensures selectedTab == selected && userList == old(userList)
      ensures currentSortColumn == old(currentSortColumn) && currentSortDirection == old(currentSortDirection)
    {
      selectedTab := selected;
    }

    /**
     * `sortTableHtml`: the header click updates the sort state, the array is
     * sorted in place by the chosen column and direction, and a copy of it
     * becomes the new `userList`.
     */
    method SortTableHtml(sortBy: string)
      modifies this, userList
      ensures SortState(currentSortColumn, currentSortDirection)
           == Click(old(SortState(currentSortColumn, currentSortDirection)), sortBy)
      ensures fresh(userList) && selectedTab == old(selectedTab)
      ensures userList[..] == StableSort(old(userList[..]), ByColumn(sortBy, currentSortDirection))
      ensures multiset(userList[..]) == multiset(old(userList[..]))
      ensures sortBy == "id" ==> forall i, j :: 0 <= i < j < userList.Length ==>
                (if currentSortDirection == Asc then userList[i].id <= userList[j].id else userList[i].id >= userList[j].id)
      ensures !KnownColumn(sortBy) ==> userList[..] == old(userList[..])
    {
      if currentSortColumn == sortBy {
        currentSortDirection := Flip(currentSortDirection);
      } else {
        currentSortColumn := sortBy;
        currentSortDirection := Asc;
      }
      userList := SortedCopy(userList, sortBy, currentSortDirection);
    }

    /** `getSortIcon`: the arrow on the current column, nothing on the others. */
    function GetSortIcon(column: string): (r: string)
      reads this
      ensures column == currentSortColumn && currentSortDirection == Asc ==> r == " ▲"
      ensures column == currentSortColumn && currentSortDirection == Desc ==> r == " ▼"
      ensures column != currentSortColumn ==> r == ""
    {
      SortIcon(currentSortColumn == column, currentSortDirection, "")
    }
  }
}
