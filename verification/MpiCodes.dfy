/** Result codes, types and operations of include/mpi.h. */
module MpiCodes {
  const MPI_SUCCESS := 0
  const MPI_ERR_COUNT := 2
  const MPI_ERR_TYPE := 3
  const MPI_ERR_COMM := 5
  const MPI_ERR_RANK := 6
  const MPI_ERR_OP := 9
  const MPI_ERR_OTHER := 15

  const MPI_INT := 2
  const MPI_LONG := 3
  const MPI_DOUBLE := 4

  const MPI_SUM := 0
  const MPI_PROD := 1
  const MPI_MAX := 2
  const MPI_MIN := 3
}
