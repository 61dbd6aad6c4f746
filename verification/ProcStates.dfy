/** The states of a process, as proc.h lists them. */
module ProcStates {
  datatype ProcState = UNUSED | EMBRYO | SLEEPING | RUNNABLE | RUNNING | ZOMBIE
}
